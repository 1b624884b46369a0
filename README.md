# yotils: the dataset reorganiser, modelled in Dafny

yotils is a command-line tool (`index.js`). It reorganises a flat folder
of object-detection annotation pairs, `<name>.txt` beside `<name>.jpg`,
into a dataset layout:

- The tool first reads its arguments: a folder, and optionally `-o`
  target classes, `-r` a replacement class, `-i` a start index and `-l`
  a label-list file.
- A label list becomes a map from each class name to its 0-based
  position, written in decimal.
- The tool then walks the folder's listing once and looks at each
  annotation file that has a paired image. It splits the file's trimmed
  content into lines, and each line into space-separated tokens. It
  keeps only the lines whose first token (the class field) is a target
  class. In each kept line it replaces the class field with the mapped
  index for the file's label key, or else with the replacement class.
- If no line survives, the annotation file moves to
  `validate/<base>.txt` and the image to `validate/<base>.jpg`. Because
  the base name keeps an extension that is not lower-case, `a.TXT`
  becomes `validate/a.TXT.txt`. Otherwise the surviving lines go to `labels/<new>.txt`, the original
  annotation file is deleted and the image moves to `images/<new>.jpg`.
  `<new>` is the base name without its last dot-segment, then a dot,
  then the counter padded to five digits. The counter then goes up by
  one.

The model is organised by module:

- `Text`: the JavaScript string operations used: `split`, `join`,
  `trim`, ASCII `toLowerCase`, `String(n)`, `padStart`.
- `Paths`: `extname`, `basename`, the label key and the new base name.
- `Lines`: the per-line filter and rewrite.
- `LabelMap`: building the label map.
- `Reorganizer`: the folder pass. Class `Folder` holds the four folders
  as maps from file name to content, plus the counter, and its methods
  change them in place. Each method is proved against the pure
  specification `Step`/`Run` over `Snapshot` values.
- `Cli`: the argument loop.

The filesystem is replaced by these maps, and the directory listing is
an input. The content of the label file is also an input, with `None`
when the file cannot be read.

An empty (or all-blank) annotation file might be expected to be skipped,
but it is not. JavaScript splits the empty string into one empty line
(`"".split('\n')` is `[""]`), so the guard `lines.length > 0` never
fails. With no target list, such a file is kept as a label file holding
the chosen class alone, or an empty line (`EmptyAnnotationKept`). With a
target list, it is quarantined unless the list holds the empty class
name, as `-o a,` does, in which case it is kept
(`EmptyAnnotationWithTargets`).

A label-file option that is an empty string counts as absent, as
JavaScript's truthiness tests at index.js:8 and :51 treat it.

## Model

| member | source | states |
|---|---|---|
| LabelMap.BuildLabelMap | index.js:10-13 | the `forEach` loop builds exactly the label map `LabelIndex` of the trimmed, line-split list |
| LabelMap.LabelIndexKeys | index.js:10-13 | the label map's keys are exactly the names of the list |
| LabelMap.LabelIndexLast | index.js:11-13 | each name maps to the decimal form of its last position, so a repeated name keeps its last index |
| LabelMap.LabelIndexDigits | index.js:12 | every label-map value is a string of decimal digits |
| LabelMap.LabelIndexExample | index.js:10-13 | the list `a`, `b`, `a` maps `a` to `2` and `b` to `1` |
| Text.Split | index.js:44 | a split always has at least one segment, and no segment holds the separator |
| Text.JoinSplit | index.js:48-57 | joining a split with the same separator gives back the original string, empty tokens included |
| Text.SplitJoin | index.js:69 | splitting a join gives back the segments when none holds the separator |
| Text.TrimStart | index.js:43 | removing leading white space leaves a suffix that does not start with white space, and everything removed is white space |
| Text.TrimEnd | index.js:43 | removing trailing white space leaves a prefix that does not end with white space, and everything removed is white space |
| Text.TrimEnds | index.js:43 | the result of `trim` neither starts nor ends with white space |
| Text.NatToString | index.js:12 | `String(n)` is a non-empty digit string with no leading zero except for `0` itself |
| Text.DecimalRoundTrip | index.js:12 | reading back `String(n)` as a decimal gives `n` |
| Text.Pad5Spec | index.js:67 | the padded counter has width five or the number's own width (never truncated), ends with the digits of the counter, holds no dot and denotes the counter |
| Text.Pad5Injective | index.js:67 | distinct counter values pad to distinct strings |
| Text.Pad5Examples | index.js:67 | 7 pads to `00007`; 123456 stays `123456` |
| Paths.LastDot | index.js:31 | finds the position of the last dot in a name, or -1 when there is none |
| Text.LowerChar | index.js:31 | an ASCII capital becomes the matching small letter, every other character is kept, and no capital is left |
| Text.LowerAscii | index.js:31 | the lower-cased string has the same length and each character lower-cased |
| Text.LowerAsciiSpec | index.js:31 | lower-casing leaves no ASCII capital, keeps every other character and is idempotent |
| Paths.Extname | index.js:31 | the extension is empty exactly when the name has no dot after its first character or is `..`; otherwise it is a suffix of the name that starts with its only dot |
| Paths.NodeBasenameSpec | index.js:32 | removing a suffix the name ends with leaves what, followed by that suffix, is the name; any other name is kept whole |
| Paths.TxtExtensionCases | index.js:31-36 | an extension lower-cases to `.txt` exactly when it is a dot and t, x, t in either case |
| Paths.IsTxtEntrySpec | index.js:31-36 | an entry is an annotation file exactly when it has a dot after its first character and the text from its last dot lower-cases to `.txt` |
| Paths.TxtBaseName | index.js:31-32 | the base name of an annotation file ending in lower-case `.txt` is the name without it; for any other casing it is the whole name |
| Paths.UpperCaseTxtEntry | index.js:31-37 | `a.TXT` is an annotation file whose base name is `a.TXT` |
| Paths.JpgIsNotTxt | index.js:36-38 | the paired image name `<base>.jpg` never counts as an annotation file |
| Paths.LabelKeySegments | index.js:33-34 | the label key splits into the first two segments of the base name; a base name of at most two segments is its own key; otherwise the base name is the key, a dot and the remaining segments |
| Paths.LabelKeyThreeSegments | index.js:33-34 | a base name `a.b.c` of dot-free segments, such as `dog.breed1.a`, has label key `a.b` |
| Paths.NewBaseNameShape | index.js:67 | the new base name is the base name up to its last dot, then `.` and the padded counter; a base name without a dot gives `.` and the padded counter |
| Paths.NewBaseNameCounter | index.js:67 | the padded counter can be read back from a new base name after its last dot |
| Paths.NewBaseNamesDistinct | index.js:67 | two new base names built from different counter values differ |
| Paths.NewBaseNameExample | index.js:67 | `dog.breed1.a` with counter 7 becomes `dog.breed1.00007` |
| Paths.NewBaseNameSingleSegmentExample | index.js:67 | `dog` with counter 7 becomes `.00007` |
| Lines.SurvivorIndices | index.js:47-50 | the kept positions are strictly increasing positions of the input lines |
| Lines.SurvivorIndicesExact | index.js:50 | a position is kept exactly when there is no target list or the list holds that line's original class field |
| Lines.SurvivorsSelect | index.js:47-58 | the output lines are the rewritten lines at the kept positions, in input order (an order-preserving selection) |
| Lines.RewriteLineEffect | index.js:48-57 | a rewrite changes only the class field: the rest of the line (all later tokens, empty ones included) is kept, and with no class to set the line is unchanged |
| Lines.SurvivorLine | index.js:47-57 | output line `k` is the chosen class (or the original class field) followed by the untouched rest of the `k`-th kept input line |
| Lines.SurvivorsEmpty | index.js:47-61 | no line is output exactly when no input line passes the filter |
| Lines.SurvivorsUnfiltered | index.js:47-58 | with no target list and no class to set, the output lines are the input lines |
| Lines.SurvivorsOfEmpty | index.js:43-57 | the single empty line of an empty file survives an absent target list and becomes the chosen class or stays empty |
| Lines.SurvivorsSingleLine | index.js:57 | output lines hold no line feed when the input lines and the chosen class hold none |
| Lines.FilterAndRewrite | index.js:45-59 | the line loop with `push` and the in-place token update computes exactly `Survivors` of the lines with the class chosen by precedence: mapped index, else replacement, else none |
| Reorganizer.Classify | index.js:36-65 | a non-skipped entry is an annotation file whose paired image is present; a kept file takes the current counter value and has at least one line |
| Reorganizer.Listed | index.js:28 | every filtered entry is an entry of the listing other than `images`, `labels` and `validate`, and a listing without repeats gives a filtered list without repeats |
| Reorganizer.ListedMembers | index.js:28 | the filtered list holds exactly the entries that are not output folders |
| Reorganizer.ListedAppend | index.js:28 | filtering two listings in a row is filtering the first, then the second, so the filter keeps the listing's order |
| Reorganizer.ListedSingle | index.js:28 | a single entry is kept exactly when it is not an output folder |
| Reorganizer.StepSkipped | index.js:36-40 | an entry changes nothing exactly when it is not an annotation file or its image is missing |
| Reorganizer.StepDir | index.js:62-75 | a step removes the entry and its image from the folder (or nothing) and raises the counter by one exactly when the file is kept |
| Reorganizer.StepKeepsLaterTxt | index.js:30-77 | a step never removes a later annotation entry of the listing |
| Reorganizer.RunCons | index.js:30 | handling a listing is handling its first entry and then the rest |
| Reorganizer.ClassifyPaired | index.js:61-65 | a paired annotation file is quarantined when no line survives and kept with its surviving lines otherwise |
| Reorganizer.StepPaired | index.js:61-75 | the effect of a paired file is the quarantine when no line survives and the keep otherwise |
| Reorganizer.QuarantinedPair | index.js:61-65 | a paired file is quarantined exactly when none of its lines passes the filter; the annotation file moves to `validate/<base>.txt` and the image to `validate/<base>.jpg`, and `labels/`, `images/` and the counter stay as they were |
| Reorganizer.KeptPair | index.js:67-75 | a paired file with a passing line is kept: its non-empty joined lines go to `labels/<new>.txt`, the image moves to `images/<new>.jpg`, both originals leave the folder, `validate/` is unchanged and the counter goes up by one |
| Reorganizer.KeptLabelFileReadsBack | index.js:51-69 | with the pass's label map, the written label file splits back into exactly the kept file's lines when the replacement class holds no line feed (a mapped class is a digit string) |
| Reorganizer.EmptyAnnotationKept | index.js:43-44 | an empty or blank annotation file with no target list is kept as one line holding the chosen class (or nothing), not skipped |
| Reorganizer.EmptyAnnotationWithTargets | index.js:43-61 | with a target list, an empty or blank annotation file is quarantined exactly when the list lacks the empty class name |
| Reorganizer.RunCounter | index.js:75 | a pass yields one outcome per entry, and the final counter is the initial counter plus the number of kept files |
| Reorganizer.TraceNumbering | index.js:67-75 | each kept file is numbered with the initial counter plus the number of files kept before it, so kept files take consecutive numbers in listing order |
| Reorganizer.NumbersIncrease | index.js:75 | a later kept file has a larger number |
| Reorganizer.RunKeptNamesDistinct | index.js:67-73 | no two kept files of one pass get the same new base name |
| Reorganizer.KeptFileNamesDistinct | index.js:67-72 | kept files with different numbers get different label-file and image names |
| Reorganizer.StepOutputs | index.js:61-73 | a step writes `labels/` and `images/` only for a kept file: its joined lines to `<new>.txt` and its image to `<new>.jpg` |
| Reorganizer.RunKeepsFiles | index.js:30-77 | a pass none of whose kept files takes a given label-file or image name leaves those two files as they were |
| Reorganizer.RunStoresFirst | index.js:67-77 | when the first entry is kept, its label file and image are still there, unchanged, at the end of the pass |
| Reorganizer.RunStoresKept | index.js:30-77 | at the end of a pass every kept file's joined lines are in `labels/<new>.txt` and its original image in `images/<new>.jpg`: no kept pair is overwritten by a later one |
| Reorganizer.Folder.MoveToValidate | index.js:62-63 | the two renames into `validate/` leave the state `Quarantine` describes |
| Reorganizer.Folder.StoreKept | index.js:67-75 | the write, the unlink, the rename into `images/` and the increment leave the state `Keep` describes |
| Reorganizer.Folder.ProcessEntry | index.js:31-76 | one loop iteration changes the folder and the counter exactly as `Step` |
| Reorganizer.Folder.ProcessAll | index.js:30-77 | the loop over the listed entries changes the state exactly as `Run` |
| Reorganizer.Folder.ProcessFiles | index.js:4-80 | an unreadable label file stops the pass with nothing changed; otherwise the pass over the listing without the output folders, with the label map built from the list, changes the state exactly as `Run` |
| Cli.Parse | index.js:138-141 | accepted settings always name a non-empty folder |
| Cli.StartCounter | index.js:86 | without `-i` the counter starts at 0 |
| Cli.StartCounterDecimal | index.js:111 | `-i` followed by the decimal form of `n` starts the counter at `n` |
| Cli.ScanConcat | index.js:89-136 | reading the arguments is reading a prefix and then the rest from the settings the prefix left |
| Cli.ScanKeepsSetting | index.js:89-136 | arguments in which a flag does not occur leave that flag's setting unchanged |
| Cli.LastFlagWins | index.js:91-126 | after the last occurrence of a flag, its setting holds that occurrence's value, whatever arguments follow |
| Cli.MissingFlagValue | index.js:92-124 | a flag that is the last argument, or that is followed by an empty argument, is refused whatever follows |
| Cli.SecondFolderRefused | index.js:128-133 | once the folder is set, a further argument that is not a flag is refused |
| Cli.ScanFolder | index.js:127-130 | the folder that reading leaves is either the one it started with or one of the arguments |
| Cli.FirstFolderWins | index.js:127-130 | when accepted, the first non-empty argument that is neither a flag nor a flag's value is the folder |
| Cli.ParseFolder | index.js:127-141 | the folder of accepted settings is one of the arguments |
| Cli.ScanKeepsFolder | index.js:127-130 | once the folder is set, reading the remaining arguments keeps it |
| Cli.ScanNoFolder | index.js:89-136 | reading from an unset folder succeeds with the folder still unset exactly when the arguments are value flags with non-empty values and empty arguments |
| Cli.ScanNotUsage | index.js:89-136 | the argument loop itself never gives the usage error |
| Cli.ParseUsage | index.js:138-141 | the outcome is the usage error exactly when the arguments name no folder: only value flags with non-empty values, and empty arguments |
| Cli.ParseExample | index.js:89-136 | `data -i 7 -r 3 -r 5` gives folder `data`, index `7` and replacement `5` |
| Cli.ParseArgs | index.js:82-141 | the argument loop with its early exits and double step over flag values computes exactly `Parse` |

## Left out

- The filesystem calls (`readdirSync`, `existsSync`, `readFileSync`, `writeFileSync`, `renameSync`, `unlinkSync`) are not modelled. Folders are maps, the listing is an input, and the label file's content is an input (`None` when it cannot be read).
- The creation of `images/`, `labels/` and `validate/` (index.js:24-26) has no counterpart, because the three maps always exist.
- Listing order is an input: the order the operating system returns entries in is not modelled.
- Entries other than the three output folders are all files. Another subfolder, or a name with a slash, is outside the model.
- Console output and `process.exit` are not modelled. Exits become the `LabelsUnreadable` status or an `ArgError`.
- The `async` wrapper is not modelled: nothing is awaited, and the pass is sequential.
- The top-level call at index.js:143, which hands the parsed settings to the pass, is not modelled. The `Folder` constructor takes the start counter, and `ProcessFiles` takes the options as a `Reorganizer.Config`.
- StartCounter: models `parseInt` only for a plain string of decimal digits. For any other text (signs, leading spaces, trailing junk, `NaN`) it gives `None`. The counter is unbounded, and `String(n)`'s exponent form for n ≥ 10^21 is not modelled.
- `toLowerCase` is modelled on ASCII letters only. No non-ASCII lowercasing can produce `.txt`, so the decision is unaffected: the extension compared is `.txt` exactly when its ASCII lowercasing is.
- `labelsMap` is a plain JavaScript object in the source. Inherited keys such as `constructor` would count as present there; the model uses a map with a true membership test.
- The label-map lookup at index.js:51 sits inside the line loop, but it depends only on the file. The model computes it once per file, with the same result.
- File contents are strings. No text encoding is modelled.
- Every filesystem call during the pass is taken to succeed. In the source, a failed read, write, rename or unlink throws and ends the pass part-way; the model has no such failure path.

Within these limits the model derives names as the source does. For
example, an annotation file `a.TXT` keeps its suffix in its base name,
`a.TXT`, because `basename` strips case-sensitively
(`UpperCaseTxtEntry`). Its image is therefore looked up as `a.TXT.jpg`.
