# wd14-tagger-xmp: the list, dictionary and counter logic

wd14-tagger-xmp tags images with the WD14 classifier and writes the selected
tags into each image's `XMP:Subject` field through exiftool. This project
models, in Dafny, the parts of its three scripts that decide *what* happens
to which file. The classifier, exiftool, the HTTP server and the file system
are parameters.

- **`embed_tags_universal.py`** (modules `Universal`, `Tagging`, `Text`):
  - `collect_images`: glob patterns, directory walks, the image-extension
    filter, then `sorted(set(...))`.
  - The standalone and client loops:
    - skip files that already carry tags unless `--force`;
    - select tags whose probability is strictly above the threshold;
    - hand a non-empty selection to `write_xmp_passthrough_safe`;
    - count `processed` and `skipped`;
    - in client mode, `break` when the server cannot be reached.
- **`embed_tags.py`** (module `Cpu`):
  - the target list built from the arguments (glob matches, or the literal
    argument, then `sorted(set(...))`);
  - the per-file detect-and-write loop, which keeps no counters.
- **`make_report.py`** (module `Report`):
  - the folder-name mapping from the config;
  - grouping the log items by rating, in first-appearance order;
  - one page per group, named `report_<folder>.html`, whose cards use
    slash-normalised paths and show the first four probabilities;
  - the run ends at the first item with fewer than four probabilities.

Environments record the collaborators as functions:

| Environment | Collaborators |
|---|---|
| `FileSystem` | `glob`, `isdir`/`isfile`, `os.walk`, `os.path.join` |
| `TaggerIo` | `has_xmp_tags`, the classifier, whether the exiftool write and the rename dance succeed |
| `ClientIo` | `has_xmp_tags`, the server's reply, whether the write succeeds |
| `CpuIo` | `isfile`, the classifier |
| `ReportIo` | `os.path.relpath`, `os.path.basename` |

How the model is built:
- Every loop of the scripts is a `method` with a `for` loop.
- Each method is proved equal to a specification function (`Collected`,
  `RunSteps`, `Targets`, `CpuWrites`, `RatingOrder`/`Group`, `Cards`,
  `PagesFor`).
- The lemmas state what the scripts promise about those functions.

Modules:
- `Wrappers`: `Option`.
- `Text`:
  - ASCII `lower`, `endswith`, `replace("\\", "/")`, the code-point order on
    strings;
  - `sorted(set(xs))`;
  - `", ".join`, and a split on the exact separator `", "` that stands in for
    the split exiftool makes under `-sep ", "`.
- `Tagging`: the threshold selection and the writer's empty-list guard,
  shared by both tagger scripts.
- `Universal`, `Cpu`, `Report`: one module per script.

## Model

| member | source | states |
|---|---|---|
| Text.Lower | embed_tags_universal.py:175 | The ASCII-only lowering keeps the length and lower-cases each character. |
| Text.LowerKeepsSuffix | embed_tags_universal.py:175 | If a name ends with a suffix, its lower-cased form ends with the lower-cased suffix. |
| Text.Slashed | make_report.py:119 | `replace("\\", "/")` keeps the length, turns every backslash into `/`, leaves no backslash and changes no other character. |
| Text.SlashedIdempotent | make_report.py:119-123 | Rewriting the backslashes a second time (line 123 after line 119) changes nothing. |
| Text.SlashedAppend | make_report.py:119 | Rewriting `"file:///" + path` rewrites each part separately. |
| Text.Insert | embed_tags_universal.py:180 | Inserting into a strictly sorted list keeps it strictly sorted, and the result holds the old elements plus the new one and nothing else. |
| Text.SortedUnique | embed_tags_universal.py:180 | `sorted(list(set(xs)))` is strictly increasing and holds exactly the elements of `xs`. |
| Text.StrictlySortedUnique | embed_tags_universal.py:180 | Two strictly sorted lists with the same elements are equal, so that result is unique. |
| Text.SplitAfterPart | embed_tags_universal.py:134-135 | A comma-free part stays whole ahead of whatever follows it when the Subject value is split on `", "`. |
| Text.SplitJoin | embed_tags_universal.py:123 | Splitting `", ".join(parts)` on `", "` gives back `parts` when no part contains a comma. |
| Tagging.SelectedIndices | embed_tags_universal.py:352-353 | An index is selected iff it is in range and its probability is strictly above the threshold; selected indices are increasing. |
| Tagging.SelectFails | embed_tags_universal.py:354 | The selection raises (`tags_global[i]` past the vocabulary) iff some probability above the threshold sits at an index with no tag. |
| Tagging.SelectContents | embed_tags_universal.py:351-354 | A successful selection lists, in order, exactly the tags at the selected indices. |
| Tagging.SelectTags | embed_tags_universal.py:351-354 | The selection loop yields `Select` (an `IndexError` is `None`). |
| Tagging.HigherThresholdSelectsFewer | embed_tags_universal.py:353 | A higher threshold selects a subset of the indices, and no more of them. |
| Tagging.ThresholdIsExclusive | embed_tags_universal.py:353 | A probability equal to the threshold is not selected (`>` not `>=`). |
| Tagging.XmpSubject | embed_tags_universal.py:122-123 | No Subject value for an empty list; otherwise the `", "`-joined value, which splits back into the tags when they are comma-free. |
| Tagging.PassthroughWrite | embed_tags_universal.py:121-161 | `write_xmp_passthrough_safe` returns `False` for an empty list and otherwise the external write's success. |
| Universal.CollectImages | embed_tags_universal.py:163-180 | The nested loops followed by `sorted(list(set(collected)))`: strictly increasing, exactly the collected paths, and (when `os.path.join` keeps the file name) only image extensions. |
| Universal.WalkImages | embed_tags_universal.py:173-176 | The walk keeps, in order, `join(root, f)` for every walked file whose name has an image extension. |
| Universal.LiteralArgumentIsSoleCandidate | embed_tags_universal.py:166-169 | An argument without `*`/`?` is its own only candidate, and an existing image file is collected as it was named. |
| Universal.KeepCandidate | embed_tags_universal.py:171-179 | The body for one candidate keeps what `FromCandidate` keeps: the walk of a directory, an image file itself, nothing otherwise. |
| Universal.CollectedHaveImageExt | embed_tags_universal.py:175-179 | Provided `os.path.join(root, f)` ends with `f` (`JoinKeepsName`), every collected path, lower-cased, ends with one of `VALID_EXTS`. |
| Universal.AfterDetection | embed_tags_universal.py:356-358 | A write is attempted exactly for a non-empty selection, and its result decides written versus failed; an empty selection writes nothing, and a failed selection is an error. |
| Universal.DetectAndWrite | embed_tags_universal.py:351-358 | Selecting and then writing yields `AfterDetection` of the selection. |
| Universal.RunStandalone | embed_tags_universal.py:336-362 | The standalone loop's counters and write calls equal `RunSteps` over the files with the standalone step. |
| Universal.InferAndWrite | embed_tags_universal.py:347-358 | For a file that is not skipped, the `try` block yields the standalone outcome, which is never a skip. |
| Universal.StandaloneSkipped | embed_tags_universal.py:342-345 | A file is skipped iff the run is not forced and it already has XMP tags. |
| Universal.StandaloneCounts | embed_tags_universal.py:336-358 | `skipped` is the number of already tagged files (0 with `--force`); `processed` is the number of successful write calls; together they are at most the number of files. |
| Universal.StandaloneWrites | embed_tags_universal.py:342-358 | Every write call goes to an input file that was not skipped, with the non-empty selection made from its probabilities. |
| Universal.StandaloneEligibleWritten | embed_tags_universal.py:342-358 | Conversely, every input file that is not skipped and whose selection is non-empty gets a write call with that selection. |
| Universal.RunStepsBounds | embed_tags_universal.py:340-358 | Each file adds at most one skip, success or write call to the totals. |
| Universal.RunStepsWrites | embed_tags_universal.py:356-358 | Every write call is for an input file whose step wrote that selection. |
| Universal.RunStepsWritesAt | embed_tags_universal.py:356-358 | Conversely, a file reached before any `break` whose step writes a selection has that write call among the run's writes. |
| Universal.RunStepsProcessedWrites | embed_tags_universal.py:356-358 | `processed` counts exactly the write calls that succeeded. |
| Universal.RunClient | embed_tags_universal.py:243-287 | The client loop's counters and write calls equal `RunSteps` over the files with the client step. A failed connection stops the run. A reply outside 200..299 stops it too as written (`AsWritten`), and fails only its own file under the corrected handling (`Intended`, see Findings). |
| Universal.SendAndWrite | embed_tags_universal.py:254-281 | For a file that is not skipped, the `try` block breaks iff the connection failed or, as written, the status is outside 200..299; otherwise it yields the client step's outcome. |
| Universal.ClientWrites | embed_tags_universal.py:262-277 | Under either handling, every client write call goes to a file that was not skipped, answered by a 200 reply, with the non-empty selection made from that reply's probabilities. |
| Universal.ClientEligibleWritten | embed_tags_universal.py:249-277 | Conversely, under either handling, a file reached before the loop breaks, not skipped, answered with 200 and with a non-empty selection gets a write call with that selection. |
| Universal.ClientCounts | embed_tags_universal.py:243-277 | In both HTTP handlings, `processed + skipped` is at most the number of files, and `processed` is the number of successful write calls. |
| Universal.ServerErrorSkipsOnlyThatFile | embed_tags_universal.py:263-265 | With the corrected handling, a non-200 reply costs only its own file: the rest of the batch runs unchanged. |
| Universal.ServerErrorEndsBatchAsWritten | embed_tags_universal.py:279-281 | As written, a reply outside 200..299 reaches `except URLError: break`, and nothing is counted or written. |
| Universal.ExampleSteps | embed_tags_universal.py:262-281 | On the example batch, a 500 for `a.png` stops the loop as written, but only fails that file when corrected; `b.png` is then written. |
| Universal.ServerErrorExample | embed_tags_universal.py:262-281 | On the example batch, `processed` is 0 as written and 1 when corrected. |
| Cpu.TargetsMembership | embed_tags.py:109-115 | A path is a target iff some argument has it among its glob matches, or has no matches and is that path. |
| Cpu.BuildTargets | embed_tags.py:109-117 | The target list is `sorted(set(...))` of the expanded arguments: strictly increasing, with exactly the members above. |
| Cpu.RunCpu | embed_tags.py:129-150 | The CPU loop's write calls equal `CpuWrites` over the targets. |
| Cpu.CpuWritesFacts | embed_tags.py:129-144 | Every write call goes to a target that is a regular file, with the non-empty selection made from its probabilities, so exiftool always receives a Subject value. |
| Cpu.CpuEligibleWritten | embed_tags.py:129-144 | Conversely, every target that is a regular file and whose selection is non-empty gets a write call with that selection. |
| Cpu.NoWriteWithoutTags | embed_tags.py:130-144 | A target that is not a file, or whose selection is empty, gets no write call. |
| Report.RatingOrderMembers | make_report.py:102-106 | The keys of `grouped` are distinct and are exactly the ratings that occur in the log. |
| Report.GroupMembers | make_report.py:102-106 | A group holds only log items with its rating, and is no longer than the log. |
| Report.GroupEmptyUnlessRated | make_report.py:105 | A rating that is not a key has no items. |
| Report.GroupByRating | make_report.py:102-106 | The grouping loop builds a dictionary whose keys, in insertion order, are the ratings in first-appearance order, and whose entry for each key is that rating's items in log order. |
| Report.GroupAppend | make_report.py:103-106 | Grouping distributes over concatenation of the log, so each group keeps the items' relative order. |
| Report.ItemInExactlyOneGroup | make_report.py:103-106 | Every item is in the group of its own rating and in no other. |
| Report.RatingOrderPrefix | make_report.py:105 | A key once inserted keeps its place: the keys of a prefix of the log come first. |
| Report.FirstAppearanceOrder | make_report.py:109 | `grouped.items()` visits an earlier item's rating before a rating that first appears later. |
| Report.TotalSize | make_report.py:102-106 | The group sizes add up to the number of log items. |
| Report.FolderNameFromConfig | make_report.py:91-110 | A configured `folder_names` entry replaces the rating; without a config, without `folder_names` or without an entry, the rating is the folder name. |
| Report.ReportFileNameRoundTrip | make_report.py:111 | The folder name can be read back from `report_<folder>.html`, and only from names of that shape. |
| Report.SameReportFile | make_report.py:110-111 | Two ratings write the same report file iff their folder names agree. |
| Report.CardSource | make_report.py:115-123 | A card's image source is the slash-rewritten relative path, or `file:///` plus the slash-rewritten absolute path when `relpath` raises; it never contains a backslash. |
| Report.FileUrlSlashed | make_report.py:119-123 | The fallback URL is unchanged by the second rewrite. |
| Report.Cards | make_report.py:113-129 | A group's cards fail iff some item has fewer than four probabilities; otherwise there is one card per item, in order, each that item's card. |
| Report.BuildCards | make_report.py:113-129 | The card loop yields `Cards`. |
| Report.RenderGroup | make_report.py:110-131 | The body for one group yields `PageFor`: the mapped folder name, its report file name, the group size and the cards, or `None` when a card raises. |
| Report.MakeReport | make_report.py:91-136 | `make_report`, from the loaded config and log onwards, produces exactly the pages and completion of `ReportOf`. |
| Report.PagesForCounts | make_report.py:109-136 | At most one page per rating; one per rating when the run completes, and then the counts add up to the group sizes. |
| Report.PagesForComplete | make_report.py:109-136 | The run completes iff every visited group renders. |
| Report.PagesForFit | make_report.py:109-131 | The page at each position belongs to the rating at that position. |
| Report.PageForFits | make_report.py:110-131 | A group's page has the mapped folder name as category, `report_<folder>.html` as file name, the group size as count and as number of cards, and no backslash in any card source. |
| Report.WellFormedRenders | make_report.py:121-129 | If every item has four probabilities, every group renders. |
| Report.RendersWellFormed | make_report.py:121-129 | If every group renders, every item has four probabilities. |
| Report.ReportPages | make_report.py:102-136 | The run completes iff every item has at least four probabilities; then there is one page per rating, and the counts add up to the number of log items. Each page fits the rating at its position, in first-appearance order. |

## Left out

- Model loading is not modelled: `hf_hub_download`, reading `selected_tags.csv`, the ONNX session and its providers. The tag vocabulary is an input.
- Image opening, `preprocess` and inference are not modelled. Their result, or the exception they raise, is the `infer` parameter.
- `has_xmp_tags` is not modelled. Its exiftool call is the `hasXmpTags` parameter.
- The write inside `write_xmp_passthrough_safe` is not modelled: the temporary rename, the exiftool command, the restore in `finally`. Its combined success is the `toolSucceeds` parameter.
- `embed_tags.py`'s writer returns nothing, so the CPU model records only the call.
- The HTTP server (`TagServerHandler`, `run_server`) is not modelled, nor are the `urllib` request details. The reply is the `reply` parameter:
  - a status and a probability list;
  - a failed connection;
  - a local error, such as an unreadable file or a body that is not JSON.
- `glob.glob`, `os.path.isdir`, `os.path.isfile`, `os.path.exists`, `os.walk`, `os.path.join`, `os.path.relpath` and `os.path.basename` are not modelled. They are the fields of the environment records.
- `argparse`, `tqdm`, the messages printed, and the mode dispatch in `main` are not modelled. The early returns when there are no images or files only print before any work.
- KeyboardInterrupt and `sys.exit` are not modelled. The batch loops would end the process.
- HTML templating and percentage formatting are not modelled. A card keeps the first four probabilities as numbers, and a page keeps its cards rather than HTML text.
- Reading and parsing `config.json` and `report_log.json` are not modelled. The config arrives already loaded (`None` when it is missing or unreadable), and the log arrives as a list of items.
- The early returns when the log is missing or unreadable are not modelled.
- Writing the HTML files and deleting the log are not modelled.
- A log item lacking `rating`, `path` or `probs` (`KeyError`) is not modelled. Nor is a rating, folder name or probability of a different type.
- Probabilities are modelled as `real`, not as the scripts' floating-point numbers.
- No rating is computed here: make_report.py:104 only reads `item['rating']` from the log, and neither tagger script computes one.
- `hasXmpTags`, `infer`, `toolSucceeds` and the reply are functions of the path string, not of the file. Two spellings of one file (`a.png`, `./a.png`) both survive `set()` and are processed as two files, as in the code. The model does not relate two such spellings to each other.
- Lower: models only the ASCII letters of `str.lower`. Python's full mapping also changes non-ASCII characters, and can change the length (`'İ'.lower()` is two characters). The only non-ASCII characters it maps onto ASCII letters give `k` (the Kelvin sign) and `i` followed by a combining dot (`İ`), and no `VALID_EXTS` entry holds either letter, so the extension checks are unchanged.
- Split: cuts only at the exact two characters `", "`. exiftool's own splitting under `-sep ", "` may be more lenient about whitespace around the comma, so `Split` approximates what exiftool stores.
- SplitJoin: the round trip holds only for comma-free tags. exiftool would cut a tag that contains `", "` into several, and the code does not guard against that.
- XmpSubject: states that the Subject value splits back only for comma-free tags, for the same reason.
- CollectImages: the image-extension property assumes `os.path.join(root, f)` ends with `f` (`JoinKeepsName`), which is true of the plain names `os.walk` reports.
- CollectedHaveImageExt: requires `JoinKeepsName`, for the same reason. `os.path.join` is a parameter, and without that property a joined path could have any extension.
- ClientCounts: states no exact `skipped` count, because a failed connection ends the run before the remaining files are looked at.

## Findings

| source | as written | input that shows it | evidently intended | confidence | as-written member | corrected member |
|---|---|---|---|---|---|---|
| embed_tags_universal.py:262-281 | `urlopen` raises `HTTPError`, a subclass of `URLError`, for any status outside 200..299. So the `res.status != 200` branch never sees a server error, and a 500 (which the server sends when it cannot process an image) reaches `except URLError: break` and ends the whole batch. | Files `a.png`, `b.png`. The server answers 500 for `a.png` and 200 with probability 0.9 for `b.png`. The threshold is 0.35 and the tags are `["1girl"]`. As written, `processed` is 0 and `b.png` is never sent. | Report the server error and go on with the next file, as the `status != 200: continue` branch is written to do. | medium, not executed | Universal.ServerErrorEndsBatchAsWritten | Universal.ServerErrorSkipsOnlyThatFile |
