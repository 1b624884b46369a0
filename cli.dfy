/**
 * The command line: `yotils <folder> [-o classes] [-r class] [-i index] [-l file]`.
 * Arguments are read left to right; each of the four flags takes the next
 * argument as its value (a later occurrence overrides an earlier one), and
 * the first other argument names the folder. A flag without a (non-empty)
 * value, a second folder argument or a missing folder stops the program.
 */
module Cli {
  import opened Wrappers
  import opened Text

  /** The settings the arguments produce. The folder is `""` while unset, as
      the source treats an empty folder argument like a missing one. The
      index is kept as the text given after `-i`. */
  datatype Options = Options(
    folder: string,
    targets: Option<seq<string>>,
    replacement: Option<string>,
    index: Option<string>,
    labelsFile: Option<string>)

  /** Why the arguments are refused. */
  datatype ArgError =
    | MissingValue(flag: string)
    | UnexpectedArgument(arg: string)
    | Usage

  const Defaults: Options := Options("", None, None, None, None)

  predicate IsValueFlag(arg: string)
  {
    arg == "-o" || arg == "-r" || arg == "-i" || arg == "-l"
  }

  /** The effect of a flag and its value: `-o` takes a comma-separated list. */
  function SetFlag(o: Options, flag: string, value: string): Options
    requires IsValueFlag(flag)
  {
    if flag == "-o" then o.(targets := Some(Split(value, ',')))
    else if flag == "-r" then o.(replacement := Some(value))
    else if flag == "-i" then o.(index := Some(value))
    else o.(labelsFile := Some(value))
  }

  /** Reading the arguments from left to right, starting from `acc`. */
  function Scan(args: seq<string>, acc: Options): Result<Options, ArgError>
    decreases |args|
  {
    if |args| == 0 then Success(acc)
    else if IsValueFlag(args[0]) then
      if |args| < 2 || args[1] == "" then Failure(MissingValue(args[0]))
      else Scan(args[2..], SetFlag(acc, args[0], args[1]))
    else if acc.folder == "" then Scan(args[1..], acc.(folder := args[0]))
    else Failure(UnexpectedArgument(args[0]))
  }

  /** The outcome of the command line: the settings, or why it is refused.
      Accepted settings always name a non-empty folder. */
  function Parse(args: seq<string>): (r: Result<Options, ArgError>)
    ensures r.Success? ==> r.value.folder != ""
  {
    match Scan(args, Defaults)
    case Failure(e) => Failure(e)
    case Success(o) => if o.folder == "" then Failure(Usage) else Success(o)
  }

  /** The start value of the counter: `0` without `-i`, else the number the
      index text denotes, when that text is a plain string of decimal digits
      (`None` for any other text). */
  function StartCounter(index: Option<string>): (r: Option<nat>)
    ensures index.None? ==> r == Some(0)
  {
    match index
    case None => Some(0)
    case Some(text) => if |text| > 0 && AllDigits(text) then Some(DecimalValue(text)) else None
  }

  /** Reading a prefix, then the rest, is reading the whole. */
  lemma {:induction false} ScanConcat(a: seq<string>, b: seq<string>, acc: Options)
    requires Scan(a, acc).Success?
    ensures Scan(a + b, acc) == Scan(b, Scan(a, acc).value)
    decreases |a|
  {
    if |a| > 0 {
      if IsValueFlag(a[0]) {
        assert (a + b)[2..] == a[2..] + b;
        ScanConcat(a[2..], b, SetFlag(acc, a[0], a[1]));
      } else {
        assert (a + b)[1..] == a[1..] + b;
        ScanConcat(a[1..], b, acc.(folder := a[0]));
      }
    } else {
      assert a + b == b;
    }
  }

  /** The setting a value flag controls is the same in `o` and `p`. */
  predicate SameSetting(o: Options, p: Options, flag: string)
    requires IsValueFlag(flag)
  {
    if flag == "-o" then o.targets == p.targets
    else if flag == "-r" then o.replacement == p.replacement
    else if flag == "-i" then o.index == p.index
    else o.labelsFile == p.labelsFile
  }

  /** Arguments in which a flag does not occur leave its setting alone. */
  lemma {:induction false} ScanKeepsSetting(b: seq<string>, acc: Options, flag: string)
    requires IsValueFlag(flag) && flag !in b && Scan(b, acc).Success?
    ensures SameSetting(Scan(b, acc).value, acc, flag)
    decreases |b|
  {
    if |b| > 0 {
      if IsValueFlag(b[0]) {
        assert b[0] != flag;
        assert forall x :: x in b[2..] ==> x in b;
        ScanKeepsSetting(b[2..], SetFlag(acc, b[0], b[1]), flag);
      } else {
        assert forall x :: x in b[1..] ==> x in b;
        ScanKeepsSetting(b[1..], acc.(folder := b[0]), flag);
      }
    }
  }

  /** A flag given again overrides its earlier value: after its last
      occurrence, the setting holds that occurrence's value, whatever other
      arguments follow. */
  lemma LastFlagWins(a: seq<string>, flag: string, value: string, b: seq<string>, acc: Options)
    requires Scan(a, acc).Success? && IsValueFlag(flag) && value != "" && flag !in b
    requires Scan(a + [flag, value] + b, acc).Success?
    ensures SameSetting(Scan(a + [flag, value] + b, acc).value, SetFlag(Scan(a, acc).value, flag, value), flag)
  {
    var mid := SetFlag(Scan(a, acc).value, flag, value);
    assert a + [flag, value] + b == a + ([flag, value] + b);
    ScanConcat(a, [flag, value] + b, acc);
    assert ([flag, value] + b)[2..] == b;
    ScanKeepsSetting(b, mid, flag);
  }

  /** A flag that is the last argument, or is followed by an empty one, is
      refused, whatever comes after. */
  lemma MissingFlagValue(a: seq<string>, flag: string, b: seq<string>, acc: Options)
    requires Scan(a, acc).Success? && IsValueFlag(flag)
    ensures Scan(a + [flag], acc) == Failure(MissingValue(flag))
    ensures Scan(a + [flag, ""] + b, acc) == Failure(MissingValue(flag))
  {
    ScanConcat(a, [flag], acc);
    assert a + [flag, ""] + b == a + ([flag, ""] + b);
    ScanConcat(a, [flag, ""] + b, acc);
  }

  /** Once the folder is set, a further argument that is not a flag is refused. */
  lemma SecondFolderRefused(a: seq<string>, arg: string, b: seq<string>, acc: Options)
    requires Scan(a, acc).Success? && Scan(a, acc).value.folder != "" && !IsValueFlag(arg)
    ensures Scan(a + [arg] + b, acc) == Failure(UnexpectedArgument(arg))
  {
    assert a + [arg] + b == a + ([arg] + b);
    ScanConcat(a, [arg] + b, acc);
  }

  /** The folder of accepted settings is one of the arguments. */
  lemma {:induction false} ScanFolder(args: seq<string>, acc: Options)
    requires Scan(args, acc).Success?
    ensures var f := Scan(args, acc).value.folder;
      f == acc.folder || f in args
    decreases |args|
  {
    if |args| > 0 {
      if IsValueFlag(args[0]) {
        ScanFolder(args[2..], SetFlag(acc, args[0], args[1]));
        assert forall x :: x in args[2..] ==> x in args;
      } else {
        ScanFolder(args[1..], acc.(folder := args[0]));
        assert forall x :: x in args[1..] ==> x in args;
      }
    }
  }

  /** Accepted settings name a folder given on the command line. */
  lemma ParseFolder(args: seq<string>)
    requires Parse(args).Success?
    ensures Parse(args).value.folder in args
  {
    ScanFolder(args, Defaults);
  }

  /** The arguments name no folder: each is a value flag followed by a
      non-empty value, or an empty argument, which leaves the folder unset. */
  predicate NoFolderArgument(args: seq<string>)
    decreases |args|
  {
    if |args| == 0 then true
    else if IsValueFlag(args[0]) then |args| >= 2 && args[1] != "" && NoFolderArgument(args[2..])
    else args[0] == "" && NoFolderArgument(args[1..])
  }

  /** Once the folder is set, reading the rest of the arguments keeps it. */
  lemma {:induction false} ScanKeepsFolder(args: seq<string>, acc: Options)
    requires acc.folder != "" && Scan(args, acc).Success?
    ensures Scan(args, acc).value.folder == acc.folder
    decreases |args|
  {
    if |args| > 0 {
      if IsValueFlag(args[0]) {
        ScanKeepsFolder(args[2..], SetFlag(acc, args[0], args[1]));
      }
    }
  }

  /** Reading from an unset folder accepts the arguments and leaves the
      folder unset exactly when they name no folder. */
  lemma {:induction false} ScanNoFolder(args: seq<string>, acc: Options)
    requires acc.folder == ""
    ensures (Scan(args, acc).Success? && Scan(args, acc).value.folder == "") <==> NoFolderArgument(args)
    decreases |args|
  {
    if |args| > 0 {
      if IsValueFlag(args[0]) {
        if |args| >= 2 && args[1] != "" {
          ScanNoFolder(args[2..], SetFlag(acc, args[0], args[1]));
        }
      } else if args[0] == "" {
        assert acc.(folder := args[0]) == acc;
        ScanNoFolder(args[1..], acc);
      } else if Scan(args, acc).Success? {
        ScanKeepsFolder(args[1..], acc.(folder := args[0]));
      }
    }
  }

  /** Reading the arguments never refuses them for a missing folder; only
      `Parse` does. */
  lemma {:induction false} ScanNotUsage(args: seq<string>, acc: Options)
    ensures Scan(args, acc) != Failure(Usage)
    decreases |args|
  {
    if |args| > 0 {
      if IsValueFlag(args[0]) {
        if |args| >= 2 && args[1] != "" {
          ScanNotUsage(args[2..], SetFlag(acc, args[0], args[1]));
        }
      } else if acc.folder == "" {
        ScanNotUsage(args[1..], acc.(folder := args[0]));
      }
    }
  }

  /** The usage message is the outcome exactly when no folder is named:
      the arguments are only flags with their values (and empty arguments). */
  lemma ParseUsage(args: seq<string>)
    ensures Parse(args) == Failure(Usage) <==> NoFolderArgument(args)
  {
    ScanNoFolder(args, Defaults);
    ScanNotUsage(args, Defaults);
  }

  /** The first argument that is not a flag or a flag's value, and is not
      empty, names the folder of accepted settings. */
  lemma FirstFolderWins(a: seq<string>, x: string, b: seq<string>)
    requires NoFolderArgument(a) && x != "" && !IsValueFlag(x) && Parse(a + [x] + b).Success?
    ensures Parse(a + [x] + b).value.folder == x
  {
    ScanNoFolder(a, Defaults);
    var o := Scan(a, Defaults).value;
    assert a + [x] + b == a + ([x] + b);
    ScanConcat(a, [x] + b, Defaults);
    assert ([x] + b)[1..] == b;
    ScanKeepsFolder(b, o.(folder := x));
  }

  /** `data -i 7 -r 3 -r 5` sets the folder, the index, and the replacement 5. */
  lemma ParseExample(args: seq<string>)
    requires args == ["data", "-i", "7", "-r", "3", "-r", "5"]
    ensures Parse(args) == Success(Options("data", None, Some("5"), Some("7"), None))
  {
    var a1, a2, a3 := args[1..], args[3..], args[5..];
    assert a1 == ["-i", "7", "-r", "3", "-r", "5"] && a1[2..] == a2;
    assert a2 == ["-r", "3", "-r", "5"] && a2[2..] == a3;
    assert a3 == ["-r", "5"] && a3[2..] == [];
    var o1 := Defaults.(folder := "data");
    var o2 := o1.(index := Some("7"));
    var o3 := o2.(replacement := Some("3"));
    assert Scan(args, Defaults) == Scan(a1, o1);
    assert Scan(a1, o1) == Scan(a2, o2);
    assert Scan(a2, o2) == Scan(a3, o3);
    assert Scan(a3, o3) == Success(o3.(replacement := Some("5")));
  }

  /** The decimal form of a number is read back as that number, so `-i n`
      starts the counter at `n`. */
  lemma StartCounterDecimal(n: nat)
    ensures StartCounter(Some(NatToString(n))) == Some(n)
  {
    DecimalRoundTrip(n);
  }

  /** The loop over the arguments, with its early exits. */
  method ParseArgs(args: seq<string>) returns (r: Result<Options, ArgError>)
    ensures r == Parse(args)
  {
    var folderPath := "";
    var targetObjects: Option<seq<string>> := None;
    var replacementObject: Option<string> := None;
    var index: Option<string> := None;
    var labelsFile: Option<string> := None;
    var i := 0;
    while i < |args|
      invariant 0 <= i <= |args|
      invariant Scan(args, Defaults) ==
        Scan(args[i..], Options(folderPath, targetObjects, replacementObject, index, labelsFile))
      decreases |args| - i
    {
      ghost var rest := args[i..];
      var arg := args[i];
      assert rest[0] == arg;
      if arg == "-o" || arg == "-r" || arg == "-i" || arg == "-l" {
        if i + 1 < |args| && args[i + 1] != "" {
          var value := args[i + 1];
          assert rest[1] == value && rest[2..] == args[i + 2..];
          if arg == "-o" {
            targetObjects := Some(Split(value, ','));
          } else if arg == "-r" {
            replacementObject := Some(value);
          } else if arg == "-i" {
            index := Some(value);
          } else {
            labelsFile := Some(value);
          }
          i := i + 1;
        } else {
          return Failure(MissingValue(arg));
        }
      } else if folderPath == "" {
        folderPath := arg;
        assert rest[1..] == args[i + 1..];
      } else {
        return Failure(UnexpectedArgument(arg));
      }
      i := i + 1;
    }
    if folderPath == "" {
      return Failure(Usage);
    }
    r := Success(Options(folderPath, targetObjects, replacementObject, index, labelsFile));
  }
}
