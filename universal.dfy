/** The list and counter logic of the universal tagger script: collecting the
    image paths named on the command line, and the per-file skip / detect /
    write loop of its standalone and client modes. The file system, the
    metadata tool, the classifier and the server are parameters. */
module Universal {
  import opened Wrappers
  import opened Text
  import opened Tagging

  // ---------------------------------------------------------------------------
  // Collecting the input images
  // ---------------------------------------------------------------------------

  const ValidExts: seq<string> := [".webp", ".jpg", ".jpeg", ".png", ".bmp"]

  /** `name.lower().endswith(VALID_EXTS)`. */
  predicate HasImageExt(name: string)
  {
    exists k :: 0 <= k < |ValidExts| && EndsWith(Lower(name), ValidExts[k])
  }

  /** An argument holding `*` or `?` is a glob pattern. */
  predicate IsPattern(p: string)
  {
    '*' in p || '?' in p
  }

  datatype PathKind = Directory | RegularFile | Absent

  /** One triple of `os.walk`: a directory and the names of the files in it. */
  datatype WalkStep = WalkStep(root: string, files: seq<string>)

  /** What the collection asks of the file system: `glob.glob(p, recursive=True)`,
      `os.path.isdir` / `os.path.isfile`, `os.walk` and `os.path.join`. */
  datatype FileSystem = FileSystem(
    glob: string -> seq<string>,
    kind: string -> PathKind,
    walk: string -> seq<WalkStep>,
    join: (string, string) -> string)

  /** The candidates of one argument: its glob matches, or the argument itself. */
  function Candidates(p: string, fs: FileSystem): seq<string>
  {
    if IsPattern(p) then fs.glob(p) else [p]
  }

  /** The paths kept from the files of one directory of the walk. */
  function FromFiles(root: string, files: seq<string>, fs: FileSystem): seq<string>
  {
    if |files| == 0 then []
    else
      var n := |files| - 1;
      FromFiles(root, files[..n], fs) + (if HasImageExt(files[n]) then [fs.join(root, files[n])] else [])
  }

  /** The paths kept from a whole directory walk. */
  function FromWalk(steps: seq<WalkStep>, fs: FileSystem): seq<string>
  {
    if |steps| == 0 then []
    else
      var n := |steps| - 1;
      FromWalk(steps[..n], fs) + FromFiles(steps[n].root, steps[n].files, fs)
  }

  /** The paths kept from one candidate: a directory is walked, a regular file
      is kept when its extension is an image extension, anything else is dropped. */
  function FromCandidate(c: string, fs: FileSystem): seq<string>
  {
    match fs.kind(c)
    case Directory => FromWalk(fs.walk(c), fs)
    case RegularFile => if HasImageExt(c) then [c] else []
    case Absent => []
  }

  function FromCandidates(cs: seq<string>, fs: FileSystem): seq<string>
  {
    if |cs| == 0 then []
    else
      var n := |cs| - 1;
      FromCandidates(cs[..n], fs) + FromCandidate(cs[n], fs)
  }

  /** Everything `collect_images` appends to `collected`, in order. */
  function Collected(args: seq<string>, fs: FileSystem): seq<string>
  {
    if |args| == 0 then []
    else
      var n := |args| - 1;
      Collected(args[..n], fs) + FromCandidates(Candidates(args[n], fs), fs)
  }

  /** `collect_images`: the nested loops, then `sorted(list(set(collected)))`.
      The result is strictly increasing (sorted, no duplicates), holds exactly
      the collected paths, and, when joining a directory with a file name
      ends in that name, every path in it has an image extension. */
  method CollectImages(pathArgs: seq<string>, fs: FileSystem) returns (images: seq<string>)
    ensures images == SortedUnique(Collected(pathArgs, fs))
    ensures StrictlySorted(images)
    ensures forall x :: x in images <==> x in Collected(pathArgs, fs)
    ensures JoinKeepsName(fs) ==> forall x :: x in images ==> HasImageExt(x)
  {
    var collected: seq<string> := [];
    for i := 0 to |pathArgs|
      invariant collected == Collected(pathArgs[..i], fs)
    {
      var p := pathArgs[i];
      var candidates := if '*' in p || '?' in p then fs.glob(p) else [p];
      ghost var beforeArg := collected;
      for j := 0 to |candidates|
        invariant collected == beforeArg + FromCandidates(candidates[..j], fs)
      {
        var kept := KeepCandidate(candidates[j], fs);
        CandidateStep(beforeArg, candidates, j, kept, fs);
        collected := collected + kept;
      }
      ArgumentStep(pathArgs, i, candidates, fs);
    }
    assert pathArgs[..|pathArgs|] == pathArgs;
    images := SortedUnique(collected);
    if JoinKeepsName(fs) {
      CollectedHaveImageExt(pathArgs, fs);
    }
  }

  /** The body of the inner loop of `collect_images` for one candidate: walk a
      directory, keep an image file, drop anything else. */
  method KeepCandidate(candidate: string, fs: FileSystem) returns (kept: seq<string>)
    ensures kept == FromCandidate(candidate, fs)
  {
    kept := [];
    match fs.kind(candidate) {
      case Directory =>
        kept := WalkImages(fs.walk(candidate), fs);
      case RegularFile =>
        if HasImageExt(candidate) {
          kept := [candidate];
        }
      case Absent =>
    }
  }

  /** One argument of the outer loop: its candidates' paths extend what the
      arguments before it collected. */
  lemma ArgumentStep(args: seq<string>, i: int, candidates: seq<string>, fs: FileSystem)
    requires 0 <= i < |args| && candidates == Candidates(args[i], fs)
    ensures Collected(args[..i], fs) + FromCandidates(candidates[..|candidates|], fs) == Collected(args[..i + 1], fs)
  {
    assert candidates[..|candidates|] == candidates;
    assert args[..i + 1][..i] == args[..i];
  }

  /** One candidate of the inner loop of `collect_images`: what it keeps
      extends the paths kept from the candidates before it. */
  lemma CandidateStep(before: seq<string>, candidates: seq<string>, j: int, kept: seq<string>, fs: FileSystem)
    requires 0 <= j < |candidates| && kept == FromCandidate(candidates[j], fs)
    ensures (before + FromCandidates(candidates[..j], fs)) + kept == before + FromCandidates(candidates[..j + 1], fs)
  {
    assert candidates[..j + 1][..j] == candidates[..j];
    assert FromCandidates(candidates[..j + 1], fs) == FromCandidates(candidates[..j], fs) + kept;
  }

  /** The `os.walk` part of `collect_images`: every file of every directory
      visited, joined to its directory, when its name has an image extension. */
  method WalkImages(steps: seq<WalkStep>, fs: FileSystem) returns (found: seq<string>)
    ensures found == FromWalk(steps, fs)
  {
    found := [];
    for k := 0 to |steps|
      invariant found == FromWalk(steps[..k], fs)
    {
      var root, files := steps[k].root, steps[k].files;
      assert steps[..k + 1][..k] == steps[..k];
      ghost var beforeStep := found;
      for l := 0 to |files|
        invariant found == beforeStep + FromFiles(root, files[..l], fs)
      {
        assert files[..l + 1][..l] == files[..l];
        if HasImageExt(files[l]) {
          found := found + [fs.join(root, files[l])];
        }
      }
      assert files[..|files|] == files;
    }
    assert steps[..|steps|] == steps;
  }

  /** A literal argument is its own sole candidate: glob is not consulted, and
      an existing image file named literally is collected as it is. */
  lemma LiteralArgumentIsSoleCandidate(p: string, fs: FileSystem)
    requires !IsPattern(p)
    ensures FromCandidates(Candidates(p, fs), fs) == FromCandidate(p, fs)
    ensures fs.kind(p) == RegularFile && HasImageExt(p) ==> Collected([p], fs) == [p]
  {
    assert Candidates(p, fs)[..0] == [];
    assert [p][..0] == [];
  }

  /** `os.path.join(root, f)` ends with `f`, which holds for the plain file
      names `os.walk` reports. */
  ghost predicate JoinKeepsName(fs: FileSystem)
  {
    forall root, f :: EndsWith(fs.join(root, f), f)
  }

  lemma ImageExtCarriesToSuffixOwner(path: string, name: string)
    requires EndsWith(path, name) && HasImageExt(name)
    ensures HasImageExt(path)
  {
    var k :| 0 <= k < |ValidExts| && EndsWith(Lower(name), ValidExts[k]);
    LowerKeepsSuffix(path, name);
    EndsWithTransitive(Lower(path), Lower(name), ValidExts[k]);
  }

  lemma {:induction false} FromFilesHaveImageExt(root: string, files: seq<string>, fs: FileSystem)
    requires JoinKeepsName(fs)
    ensures forall x :: x in FromFiles(root, files, fs) ==> HasImageExt(x)
  {
    if |files| > 0 {
      var n := |files| - 1;
      FromFilesHaveImageExt(root, files[..n], fs);
      if HasImageExt(files[n]) {
        ImageExtCarriesToSuffixOwner(fs.join(root, files[n]), files[n]);
      }
    }
  }

  lemma {:induction false} FromWalkHaveImageExt(steps: seq<WalkStep>, fs: FileSystem)
    requires JoinKeepsName(fs)
    ensures forall x :: x in FromWalk(steps, fs) ==> HasImageExt(x)
  {
    if |steps| > 0 {
      var n := |steps| - 1;
      FromWalkHaveImageExt(steps[..n], fs);
      FromFilesHaveImageExt(steps[n].root, steps[n].files, fs);
    }
  }

  lemma {:induction false} FromCandidatesHaveImageExt(cs: seq<string>, fs: FileSystem)
    requires JoinKeepsName(fs)
    ensures forall x :: x in FromCandidates(cs, fs) ==> HasImageExt(x)
  {
    if |cs| > 0 {
      var n := |cs| - 1;
      FromCandidatesHaveImageExt(cs[..n], fs);
      if fs.kind(cs[n]).Directory? {
        FromWalkHaveImageExt(fs.walk(cs[n]), fs);
      }
    }
  }

  /** Every collected path, lower-cased, ends with one of the image extensions. */
  lemma {:induction false} CollectedHaveImageExt(args: seq<string>, fs: FileSystem)
    requires JoinKeepsName(fs)
    ensures forall x :: x in Collected(args, fs) ==> HasImageExt(x)
  {
    if |args| > 0 {
      var n := |args| - 1;
      CollectedHaveImageExt(args[..n], fs);
      FromCandidatesHaveImageExt(Candidates(args[n], fs), fs);
    }
  }

  // ---------------------------------------------------------------------------
  // The batch loops: skip, detect, write, count
  // ---------------------------------------------------------------------------

  /** The run's options: `--thresh`, `--force`, and the tag vocabulary read
      from `selected_tags.csv`. */
  datatype Settings = Settings(thresh: real, force: bool, tags: seq<string>)

  /** What happened to one file. `Failed` stands for an exception that the
      loop catches and logs (unreadable image, failed inference, a selected
      index past the vocabulary, a server error). */
  datatype Outcome = Skipped | Failed | NoTags | WriteFailed(tags: seq<string>) | Written(tags: seq<string>)

  /** Either the loop goes on with an outcome for the file, or it stops (`break`). */
  datatype Step = Continue(outcome: Outcome) | Stop

  /** The two counters and the calls made to the metadata writer. */
  datatype Tally = Tally(processed: nat, skipped: nat, writes: seq<WriteCall>)

  const NoWork := Tally(0, 0, [])

  /** What one file adds to the counters and to the write calls. */
  function Record(path: string, o: Outcome): Tally
  {
    match o
    case Skipped => Tally(0, 1, [])
    case Written(d) => Tally(1, 0, [WriteCall(path, d)])
    case WriteFailed(d) => Tally(0, 0, [WriteCall(path, d)])
    case _ => NoWork
  }

  /** One stretch of the loop followed by the next. */
  function Then(a: Tally, b: Tally): Tally
  {
    Tally(a.processed + b.processed, a.skipped + b.skipped, a.writes + b.writes)
  }

  lemma ThenAssociative(a: Tally, b: Tally, c: Tally)
    ensures Then(Then(a, b), c) == Then(a, Then(b, c))
  {
    assert (a.writes + b.writes) + c.writes == a.writes + (b.writes + c.writes);
  }

  lemma ThenNoWork(a: Tally)
    ensures Then(a, NoWork) == a
    ensures Then(NoWork, a) == a
  {
    assert a.writes + [] == a.writes;
    assert [] + a.writes == a.writes;
  }

  /** The loop over `files`, one step per file, ending early at `Stop`. */
  function RunSteps(files: seq<string>, step: string -> Step): Tally
  {
    if |files| == 0 then NoWork
    else
      match step(files[0])
      case Stop => NoWork
      case Continue(o) => Then(Record(files[0], o), RunSteps(files[1..], step))
  }

  /** The outcome once the probabilities are known: the selection fails, finds
      nothing (no write is attempted), or is handed to the writer, whose
      result decides between `Written` and `WriteFailed`. */
  function AfterDetection(detected: Option<seq<string>>, toolSucceeded: bool): (o: Outcome)
    ensures o.Written? ==> detected == Some(o.tags) && o.tags != [] && toolSucceeded
    ensures o.WriteFailed? ==> detected == Some(o.tags) && o.tags != [] && !toolSucceeded
    ensures detected == Some([]) ==> o == NoTags
    ensures detected.None? ==> o == Failed
    ensures detected.Some? && detected.value != [] ==>
      o == (if toolSucceeded then Written(detected.value) else WriteFailed(detected.value))
  {
    match detected
    case None => Failed
    case Some(d) =>
      if d == [] then NoTags
      else if PassthroughWrite(d, toolSucceeded) then Written(d)
      else WriteFailed(d)
  }

  /** One file that does not stop the loop, then the rest of the run. */
  lemma RunStepsContinue(files: seq<string>, step: string -> Step, o: Outcome)
    requires |files| > 0 && step(files[0]) == Continue(o)
    ensures RunSteps(files, step) == Then(Record(files[0], o), RunSteps(files[1..], step))
  {
  }

  /** The counters after file `path`, outcome by outcome. */
  lemma AfterRecord(before: Tally, path: string, o: Outcome)
    ensures o.Skipped? ==> Then(before, Record(path, o)) == Tally(before.processed, before.skipped + 1, before.writes)
    ensures o.Written? ==>
      Then(before, Record(path, o)) == Tally(before.processed + 1, before.skipped, before.writes + [WriteCall(path, o.tags)])
    ensures o.WriteFailed? ==>
      Then(before, Record(path, o)) == Tally(before.processed, before.skipped, before.writes + [WriteCall(path, o.tags)])
    ensures o.Failed? || o.NoTags? ==> Then(before, Record(path, o)) == before
  {
    assert before.writes + [] == before.writes;
  }

  /** The loop moves on past file `i`, which does not stop it. */
  lemma Advance(files: seq<string>, i: int, step: string -> Step, before: Tally, o: Outcome, total: Tally)
    requires 0 <= i < |files| && step(files[i]) == Continue(o)
    requires Then(before, RunSteps(files[i..], step)) == total
    ensures Then(Then(before, Record(files[i], o)), RunSteps(files[i + 1..], step)) == total
  {
    assert files[i..][1..] == files[i + 1..];
    RunStepsContinue(files[i..], step, o);
    ThenAssociative(before, Record(files[i], o), RunSteps(files[i + 1..], step));
  }

  /** The loop stops at file `i`: the counters are final. */
  lemma Halt(files: seq<string>, i: int, step: string -> Step, before: Tally, total: Tally)
    requires 0 <= i < |files| && step(files[i]) == Stop
    requires Then(before, RunSteps(files[i..], step)) == total
    ensures before == total
  {
    ThenNoWork(before);
  }

  /** A write call was made for `w.path` with `w.tags`, whether or not it succeeded. */
  predicate WroteFor(w: WriteCall, step: string -> Step)
  {
    step(w.path) == Continue(Written(w.tags)) || step(w.path) == Continue(WriteFailed(w.tags))
  }

  /** A run accounts for at most one skip or one success per file, and for at
      most one skip or one write call per file. */
  lemma {:induction false} RunStepsBounds(files: seq<string>, step: string -> Step)
    ensures RunSteps(files, step).processed + RunSteps(files, step).skipped <= |files|
    ensures |RunSteps(files, step).writes| + RunSteps(files, step).skipped <= |files|
  {
    if |files| > 0 && step(files[0]).Continue? {
      RunStepsBounds(files[1..], step);
      RunStepsContinue(files, step, step(files[0]).outcome);
    }
  }

  /** A run writes only files among its input whose step led to a write call. */
  lemma {:induction false} RunStepsWrites(files: seq<string>, step: string -> Step)
    ensures forall w :: w in RunSteps(files, step).writes ==> w.path in files && WroteFor(w, step)
  {
    if |files| > 0 && step(files[0]).Continue? {
      RunStepsWrites(files[1..], step);
      RunStepsContinue(files, step, step(files[0]).outcome);
      assert forall x :: x in files[1..] ==> x in files;
    }
  }

  /** Conversely, a file reached before any `Stop` whose step makes a write
      call has that call among the run's writes. */
  lemma {:induction false} RunStepsWritesAt(files: seq<string>, step: string -> Step, k: int, d: seq<string>)
    requires 0 <= k < |files|
    requires forall j :: 0 <= j < k ==> step(files[j]).Continue?
    requires step(files[k]) == Continue(Written(d)) || step(files[k]) == Continue(WriteFailed(d))
    ensures WriteCall(files[k], d) in RunSteps(files, step).writes
    decreases k
  {
    var o := step(files[0]).outcome;
    assert step(files[0]).Continue?;
    RunStepsContinue(files, step, o);
    var rest := RunSteps(files[1..], step);
    if k == 0 {
      assert Record(files[0], o).writes == [WriteCall(files[0], d)];
    } else {
      forall j | 0 <= j < k - 1 ensures step(files[1..][j]).Continue? {
        assert files[1..][j] == files[j + 1];
      }
      assert files[1..][k - 1] == files[k];
      RunStepsWritesAt(files[1..], step, k - 1, d);
      assert RunSteps(files, step).writes == Record(files[0], o).writes + rest.writes;
    }
  }

  /** `processed` is the number of write calls whose step was a successful write. */
  lemma {:induction false} RunStepsProcessedWrites(files: seq<string>, step: string -> Step)
    ensures RunSteps(files, step).processed == SucceededWrites(RunSteps(files, step).writes, step)
  {
    if |files| > 0 && step(files[0]).Continue? {
      var o := step(files[0]).outcome;
      var rest := RunSteps(files[1..], step);
      RunStepsProcessedWrites(files[1..], step);
      RunStepsContinue(files, step, o);
      SucceededWritesAppend(Record(files[0], o).writes, rest.writes, step);
      RecordSucceeded(files[0], o, step);
    }
  }

  lemma RecordSucceeded(path: string, o: Outcome, step: string -> Step)
    requires step(path) == Continue(o)
    ensures SucceededWrites(Record(path, o).writes, step) == Record(path, o).processed
  {
    var ws := Record(path, o).writes;
    if |ws| > 0 {
      assert ws[1..] == [];
    }
  }

  /** The number of write calls whose file's step was a successful write. */
  function SucceededWrites(writes: seq<WriteCall>, step: string -> Step): nat
  {
    if |writes| == 0 then 0
    else (if step(writes[0].path) == Continue(Written(writes[0].tags)) then 1 else 0)
         + SucceededWrites(writes[1..], step)
  }

  lemma {:induction false} SucceededWritesAppend(a: seq<WriteCall>, b: seq<WriteCall>, step: string -> Step)
    ensures SucceededWrites(a + b, step) == SucceededWrites(a, step) + SucceededWrites(b, step)
  {
    if |a| > 0 {
      assert (a + b)[1..] == a[1..] + b;
      SucceededWritesAppend(a[1..], b, step);
    } else {
      assert a + b == b;
    }
  }

  // --- standalone mode -------------------------------------------------------

  /** The standalone mode's collaborators: `has_xmp_tags`, the classifier
      (`None` when opening or classifying the image raises), and whether the
      external write in `write_xmp_passthrough_safe` succeeds. */
  datatype TaggerIo = TaggerIo(
    hasXmpTags: string -> bool,
    infer: string -> Option<seq<real>>,
    toolSucceeds: string -> bool)

  function StandaloneOutcome(path: string, s: Settings, io: TaggerIo): Outcome
  {
    if !s.force && io.hasXmpTags(path) then Skipped
    else
      match io.infer(path)
      case None => Failed
      case Some(probs) => AfterDetection(Select(s.tags, probs, s.thresh), io.toolSucceeds(path))
  }

  function StandaloneStep(s: Settings, io: TaggerIo): string -> Step
  {
    path => Continue(StandaloneOutcome(path, s, io))
  }

  /** The block both loops run once the probabilities are known: select the
      tags and, when some were selected, hand them to the writer. */
  method DetectAndWrite(path: string, probs: seq<real>, s: Settings, toolSucceeded: bool)
    returns (o: Outcome)
    ensures o == AfterDetection(Select(s.tags, probs, s.thresh), toolSucceeded)
  {
    var detected := SelectTags(s.tags, probs, s.thresh);
    match detected {
      case None =>
        o := Failed;
      case Some(d) =>
        if d == [] {
          o := NoTags;
        } else if PassthroughWrite(d, toolSucceeded) {
          o := Written(d);
        } else {
          o := WriteFailed(d);
        }
    }
  }

  /** The standalone loop of `main` over the collected files. */
  method RunStandalone(files: seq<string>, s: Settings, io: TaggerIo)
    returns (processed: nat, skipped: nat, writes: seq<WriteCall>)
    ensures Tally(processed, skipped, writes) == RunSteps(files, StandaloneStep(s, io))
  {
    ghost var step := StandaloneStep(s, io);
    processed, skipped, writes := 0, 0, [];
    assert files[0..] == files;
    ThenNoWork(RunSteps(files, step));
    for i := 0 to |files|
      invariant Then(Tally(processed, skipped, writes), RunSteps(files[i..], step)) == RunSteps(files, step)
    {
      var path := files[i];
      ghost var before := Tally(processed, skipped, writes);
      assert step(path) == Continue(StandaloneOutcome(path, s, io));
      if !s.force && io.hasXmpTags(path) {
        skipped := skipped + 1;
        AfterRecord(before, path, Skipped);
        Advance(files, i, step, before, Skipped, RunSteps(files, step));
        continue;
      }
      var o := InferAndWrite(path, s, io);
      match o {
        case Written(d) =>
          writes := writes + [WriteCall(path, d)];
          processed := processed + 1;
        case WriteFailed(d) =>
          writes := writes + [WriteCall(path, d)];
        case Failed | NoTags =>
      }
      AfterRecord(before, path, o);
      Advance(files, i, step, before, o, RunSteps(files, step));
    }
    assert files[|files|..] == [];
    ThenNoWork(Tally(processed, skipped, writes));
  }

  /** The `try` block of the standalone loop for a file that is not skipped:
      classify the image, then select and write. */
  method InferAndWrite(path: string, s: Settings, io: TaggerIo) returns (o: Outcome)
    requires s.force || !io.hasXmpTags(path)
    ensures o == StandaloneOutcome(path, s, io)
    ensures !o.Skipped?
  {
    match io.infer(path) {
      case None =>
        o := Failed;
      case Some(probs) =>
        o := DetectAndWrite(path, probs, s, io.toolSucceeds(path));
    }
  }

  /** How many of `files` already carry tags. */
  function TaggedCount(files: seq<string>, hasTags: string -> bool): nat
  {
    if |files| == 0 then 0
    else (if hasTags(files[0]) then 1 else 0) + TaggedCount(files[1..], hasTags)
  }

  /** How many write calls the external tool carried out successfully. */
  function SuccessfulCalls(writes: seq<WriteCall>, ok: string -> bool): nat
  {
    if |writes| == 0 then 0
    else (if ok(writes[0].path) then 1 else 0) + SuccessfulCalls(writes[1..], ok)
  }

  lemma {:induction false} SucceededWritesByTool(writes: seq<WriteCall>, step: string -> Step, ok: string -> bool)
    requires forall w :: w in writes ==> (step(w.path) == Continue(Written(w.tags)) <==> ok(w.path))
    ensures SucceededWrites(writes, step) == SuccessfulCalls(writes, ok)
  {
    if |writes| > 0 {
      assert forall w :: w in writes[1..] ==> w in writes;
      SucceededWritesByTool(writes[1..], step, ok);
    }
  }

  lemma {:induction false} StandaloneSkipCount(files: seq<string>, s: Settings, io: TaggerIo)
    ensures RunSteps(files, StandaloneStep(s, io)).skipped ==
      if s.force then 0 else TaggedCount(files, io.hasXmpTags)
  {
    if |files| > 0 {
      var step := StandaloneStep(s, io);
      StandaloneSkipCount(files[1..], s, io);
      var o := StandaloneOutcome(files[0], s, io);
      assert step(files[0]) == Continue(o);
      RunStepsContinue(files, step, o);
      StandaloneSkipped(files[0], s, io);
      RecordSkipped(files[0], o);
      var rest := RunSteps(files[1..], step);
      assert RunSteps(files, step).skipped == Record(files[0], o).skipped + rest.skipped;
      assert TaggedCount(files, io.hasXmpTags) == (if io.hasXmpTags(files[0]) then 1 else 0) + TaggedCount(files[1..], io.hasXmpTags);
    }
  }

  /** A standalone file is skipped exactly when it already has tags and the run is not forced. */
  lemma StandaloneSkipped(path: string, s: Settings, io: TaggerIo)
    ensures StandaloneOutcome(path, s, io).Skipped? <==> !s.force && io.hasXmpTags(path)
  {
    if s.force || !io.hasXmpTags(path) {
      match io.infer(path)
      case None =>
      case Some(probs) =>
        var d := Select(s.tags, probs, s.thresh);
        assert !AfterDetection(d, io.toolSucceeds(path)).Skipped?;
    }
  }

  lemma RecordSkipped(path: string, o: Outcome)
    ensures Record(path, o).skipped == if o.Skipped? then 1 else 0
  {
  }

  /** The standalone counters: `skipped` is the number of already tagged files
      (none when forced), `processed` the number of write calls that
      succeeded, and the two together never exceed the number of files. */
  lemma StandaloneCounts(files: seq<string>, s: Settings, io: TaggerIo)
    ensures var t := RunSteps(files, StandaloneStep(s, io));
      && t.processed + t.skipped <= |files|
      && t.skipped == (if s.force then 0 else TaggedCount(files, io.hasXmpTags))
      && t.processed == SuccessfulCalls(t.writes, io.toolSucceeds)
  {
    var step := StandaloneStep(s, io);
    var t := RunSteps(files, step);
    RunStepsBounds(files, step);
    RunStepsWrites(files, step);
    RunStepsProcessedWrites(files, step);
    StandaloneSkipCount(files, s, io);
    forall w | w in t.writes
      ensures step(w.path) == Continue(Written(w.tags)) <==> io.toolSucceeds(w.path)
    {
      assert step(w.path) == Continue(StandaloneOutcome(w.path, s, io));
      StandaloneWriteOutcome(w.path, s, io, w.tags);
    }
    SucceededWritesByTool(t.writes, step, io.toolSucceeds);
  }

  /** A standalone write call goes only to a file that was not skipped (so an
      already tagged file is never written unless forced), and carries the
      non-empty selection made from that file's probabilities. */
  lemma StandaloneWrites(files: seq<string>, s: Settings, io: TaggerIo)
    ensures forall w :: w in RunSteps(files, StandaloneStep(s, io)).writes ==>
      && w.path in files
      && (s.force || !io.hasXmpTags(w.path))
      && w.tags != []
      && io.infer(w.path).Some?
      && Select(s.tags, io.infer(w.path).value, s.thresh) == Some(w.tags)
  {
    var step := StandaloneStep(s, io);
    RunStepsWrites(files, step);
    forall w | w in RunSteps(files, step).writes
      ensures (s.force || !io.hasXmpTags(w.path)) && w.tags != []
      ensures io.infer(w.path).Some? && Select(s.tags, io.infer(w.path).value, s.thresh) == Some(w.tags)
    {
      assert step(w.path) == Continue(StandaloneOutcome(w.path, s, io));
      StandaloneWriteOutcome(w.path, s, io, w.tags);
    }
  }

  /** A standalone file that is not skipped and whose selection is non-empty
      is handed to the writer with that selection. */
  lemma StandaloneEligibleWritten(files: seq<string>, s: Settings, io: TaggerIo, k: int, d: seq<string>)
    requires 0 <= k < |files| && (s.force || !io.hasXmpTags(files[k]))
    requires io.infer(files[k]).Some? && Select(s.tags, io.infer(files[k]).value, s.thresh) == Some(d) && d != []
    ensures WriteCall(files[k], d) in RunSteps(files, StandaloneStep(s, io)).writes
  {
    var step := StandaloneStep(s, io);
    var o := AfterDetection(Some(d), io.toolSucceeds(files[k]));
    assert o == Written(d) || o == WriteFailed(d);
    assert StandaloneOutcome(files[k], s, io) == o;
    assert step(files[k]) == Continue(o);
    forall j | 0 <= j < k ensures step(files[j]).Continue? {
      assert step(files[j]) == Continue(StandaloneOutcome(files[j], s, io));
    }
    RunStepsWritesAt(files, step, k, d);
  }

  /** What a standalone outcome that made a write call says about the file. */
  lemma StandaloneWriteOutcome(path: string, s: Settings, io: TaggerIo, tags: seq<string>)
    requires StandaloneOutcome(path, s, io) == Written(tags) || StandaloneOutcome(path, s, io) == WriteFailed(tags)
    ensures (s.force || !io.hasXmpTags(path)) && tags != []
    ensures io.infer(path).Some? && Select(s.tags, io.infer(path).value, s.thresh) == Some(tags)
    ensures StandaloneOutcome(path, s, io) == Written(tags) <==> io.toolSucceeds(path)
  {
    var probs := io.infer(path).value;
    var o := AfterDetection(Select(s.tags, probs, s.thresh), io.toolSucceeds(path));
    assert StandaloneOutcome(path, s, io) == o;
  }

  // --- client mode -----------------------------------------------------------

  /** What sending one image to the server comes to: an HTTP response with
      its status and the decoded probability list, no connection at all
      (`URLError`), or an error on the client's side (the file cannot be read,
      the body is not JSON), which the loop logs before going on. */
  datatype Reply = Response(status: int, probs: seq<real>) | ConnectionFailed | LocalError

  /** The client mode's collaborators. */
  datatype ClientIo = ClientIo(
    hasXmpTags: string -> bool,
    reply: string -> Reply,
    toolSucceeds: string -> bool)

  /** How an HTTP status other than 200 is handled. `AsWritten` is what the
      code does: `urlopen` raises `HTTPError`, a subclass of `URLError`, for
      every status outside 200..299, so such a reply reaches the
      `except URLError: break` and ends the whole batch, while the
      `status != 200` branch only ever sees the other 2xx codes. `Intended`
      is what that branch is written for: report the file and go on. */
  datatype HttpHandling = AsWritten | Intended

  function ClientStep(path: string, s: Settings, io: ClientIo, handling: HttpHandling): Step
  {
    if !s.force && io.hasXmpTags(path) then Continue(Skipped)
    else
      match io.reply(path)
      case LocalError => Continue(Failed)
      case ConnectionFailed => Stop
      case Response(status, probs) =>
        if handling == AsWritten && !(200 <= status < 300) then Stop
        else if status != 200 then Continue(Failed)
        else Continue(AfterDetection(Select(s.tags, probs, s.thresh), io.toolSucceeds(path)))
  }

  function ClientSteps(s: Settings, io: ClientIo, handling: HttpHandling): string -> Step
  {
    path => ClientStep(path, s, io, handling)
  }

  /** The loop of `run_client`, with a reply outside 200..299 handled as
      written (`AsWritten`) or as intended (`Intended`). */
  method RunClient(files: seq<string>, s: Settings, io: ClientIo, handling: HttpHandling)
    returns (processed: nat, skipped: nat, writes: seq<WriteCall>)
    ensures Tally(processed, skipped, writes) == RunSteps(files, ClientSteps(s, io, handling))
  {
    ghost var step := ClientSteps(s, io, handling);
    processed, skipped, writes := 0, 0, [];
    assert files[0..] == files;
    ThenNoWork(RunSteps(files, step));
    for i := 0 to |files|
      invariant Then(Tally(processed, skipped, writes), RunSteps(files[i..], step)) == RunSteps(files, step)
    {
      var path := files[i];
      ghost var before := Tally(processed, skipped, writes);
      assert step(path) == ClientStep(path, s, io, handling);
      if !s.force && io.hasXmpTags(path) {
        skipped := skipped + 1;
        AfterRecord(before, path, Skipped);
        Advance(files, i, step, before, Skipped, RunSteps(files, step));
        continue;
      }
      var stop, o := SendAndWrite(path, s, io, handling);
      if stop {
        Halt(files, i, step, before, RunSteps(files, step));
        break;
      }
      match o {
        case Written(d) =>
          writes := writes + [WriteCall(path, d)];
          processed := processed + 1;
        case WriteFailed(d) =>
          writes := writes + [WriteCall(path, d)];
        case Failed | NoTags =>
      }
      AfterRecord(before, path, o);
      Advance(files, i, step, before, o, RunSteps(files, step));
    }
    assert files[|files|..] == [];
    ThenNoWork(Tally(processed, skipped, writes));
  }

  /** The `try` block of the client loop for a file that is not skipped: send
      the image, check the status, then select and write. `stop` is the
      `break` of `except URLError`: on a failed connection, and as written
      also on the `HTTPError` that `urlopen` raises for a status outside
      200..299. */
  method SendAndWrite(path: string, s: Settings, io: ClientIo, handling: HttpHandling) returns (stop: bool, o: Outcome)
    requires s.force || !io.hasXmpTags(path)
    ensures stop <==> (io.reply(path).ConnectionFailed? ||
      (handling == AsWritten && io.reply(path).Response? && !(200 <= io.reply(path).status < 300)))
    ensures stop ==> ClientStep(path, s, io, handling) == Stop
    ensures !stop ==> ClientStep(path, s, io, handling) == Continue(o)
    ensures !o.Skipped?
  {
    stop, o := false, Failed;
    match io.reply(path) {
      case ConnectionFailed =>
        stop := true;
      case LocalError =>
      case Response(status, probs) =>
        if handling == AsWritten && !(200 <= status < 300) {
          stop := true;
        } else if status == 200 {
          o := DetectAndWrite(path, probs, s, io.toolSucceeds(path));
        }
    }
  }

  /** The client applies the same selection rule to the server's
      probabilities: under either handling, a write call for a file follows a
      200 reply and carries exactly what `Select` makes of that reply. */
  lemma ClientWrites(files: seq<string>, s: Settings, io: ClientIo, handling: HttpHandling)
    ensures forall w :: w in RunSteps(files, ClientSteps(s, io, handling)).writes ==>
      && w.path in files
      && (s.force || !io.hasXmpTags(w.path))
      && w.tags != []
      && io.reply(w.path).Response? && io.reply(w.path).status == 200
      && Select(s.tags, io.reply(w.path).probs, s.thresh) == Some(w.tags)
  {
    var step := ClientSteps(s, io, handling);
    RunStepsWrites(files, step);
    forall w | w in RunSteps(files, step).writes
      ensures (s.force || !io.hasXmpTags(w.path)) && w.tags != []
      ensures io.reply(w.path).Response? && io.reply(w.path).status == 200
      ensures Select(s.tags, io.reply(w.path).probs, s.thresh) == Some(w.tags)
    {
      assert step(w.path) == ClientStep(w.path, s, io, handling);
      ClientWriteStep(w.path, s, io, handling, w.tags);
    }
  }

  /** A client file reached before the loop breaks, not skipped, answered
      with 200 and a non-empty selection, is handed to the writer with that
      selection. */
  lemma ClientEligibleWritten(files: seq<string>, s: Settings, io: ClientIo, handling: HttpHandling, k: int, d: seq<string>)
    requires 0 <= k < |files|
    requires forall j :: 0 <= j < k ==> ClientStep(files[j], s, io, handling).Continue?
    requires s.force || !io.hasXmpTags(files[k])
    requires io.reply(files[k]).Response? && io.reply(files[k]).status == 200
    requires Select(s.tags, io.reply(files[k]).probs, s.thresh) == Some(d) && d != []
    ensures WriteCall(files[k], d) in RunSteps(files, ClientSteps(s, io, handling)).writes
  {
    var step := ClientSteps(s, io, handling);
    var o := AfterDetection(Some(d), io.toolSucceeds(files[k]));
    assert o == Written(d) || o == WriteFailed(d);
    assert ClientStep(files[k], s, io, handling) == Continue(o);
    assert step(files[k]) == Continue(o);
    forall j | 0 <= j < k ensures step(files[j]).Continue? {
      assert step(files[j]) == ClientStep(files[j], s, io, handling);
    }
    RunStepsWritesAt(files, step, k, d);
  }

  /** What a client step that made a write call says about the file. */
  lemma ClientWriteStep(path: string, s: Settings, io: ClientIo, handling: HttpHandling, tags: seq<string>)
    requires ClientStep(path, s, io, handling) == Continue(Written(tags)) ||
      ClientStep(path, s, io, handling) == Continue(WriteFailed(tags))
    ensures (s.force || !io.hasXmpTags(path)) && tags != []
    ensures io.reply(path).Response? && io.reply(path).status == 200
    ensures Select(s.tags, io.reply(path).probs, s.thresh) == Some(tags)
    ensures ClientStep(path, s, io, handling) == Continue(Written(tags)) <==> io.toolSucceeds(path)
  {
    var probs := io.reply(path).probs;
    var o := AfterDetection(Select(s.tags, probs, s.thresh), io.toolSucceeds(path));
    assert ClientStep(path, s, io, handling) == Continue(o);
  }

  /** The client counters never exceed the number of files, and `processed`
      is the number of write calls that succeeded. */
  lemma ClientCounts(files: seq<string>, s: Settings, io: ClientIo, handling: HttpHandling)
    ensures var t := RunSteps(files, ClientSteps(s, io, handling));
      && t.processed + t.skipped <= |files|
      && t.processed == SuccessfulCalls(t.writes, io.toolSucceeds)
  {
    var step := ClientSteps(s, io, handling);
    var t := RunSteps(files, step);
    RunStepsBounds(files, step);
    RunStepsWrites(files, step);
    RunStepsProcessedWrites(files, step);
    forall w | w in t.writes
      ensures step(w.path) == Continue(Written(w.tags)) <==> io.toolSucceeds(w.path)
    {
      assert step(w.path) == ClientStep(w.path, s, io, handling);
      ClientWriteStep(w.path, s, io, handling, w.tags);
    }
    SucceededWritesByTool(t.writes, step, io.toolSucceeds);
  }

  /** Handled as intended, a non-200 reply costs only its own file: the rest
      of the batch runs as if that file had not been there. */
  lemma ServerErrorSkipsOnlyThatFile(files: seq<string>, s: Settings, io: ClientIo)
    requires |files| > 0 && (s.force || !io.hasXmpTags(files[0]))
    requires io.reply(files[0]).Response? && io.reply(files[0]).status != 200
    ensures RunSteps(files, ClientSteps(s, io, Intended)) == RunSteps(files[1..], ClientSteps(s, io, Intended))
  {
    var rest := RunSteps(files[1..], ClientSteps(s, io, Intended));
    assert [] + rest.writes == rest.writes;
  }

  /** As written, a reply with a status outside 200..299 (the server answers
      500 when it cannot process an image) ends the batch: nothing after that
      file is skipped, processed or written. */
  lemma ServerErrorEndsBatchAsWritten(files: seq<string>, s: Settings, io: ClientIo)
    requires |files| > 0 && (s.force || !io.hasXmpTags(files[0]))
    requires io.reply(files[0]).Response? && !(200 <= io.reply(files[0]).status < 300)
    ensures RunSteps(files, ClientSteps(s, io, AsWritten)) == NoWork
  {
  }

  /** A two-file batch whose first image the server rejects with 500, the
      second of which it accepts. */
  const ExampleFiles: seq<string> := ["a.png", "b.png"]
  const ExampleSettings := Settings(0.35, false, ["1girl"])

  function ExampleIo(): ClientIo
  {
    ClientIo(
      p => false,
      p => if p == "a.png" then Response(500, []) else Response(200, [0.9]),
      p => true)
  }

  lemma ExampleSteps()
    ensures ClientSteps(ExampleSettings, ExampleIo(), AsWritten)("a.png") == Stop
    ensures ClientSteps(ExampleSettings, ExampleIo(), Intended)("a.png") == Continue(Failed)
    ensures ClientSteps(ExampleSettings, ExampleIo(), Intended)("b.png") == Continue(Written(["1girl"]))
  {
    var s := ExampleSettings;
    assert "b.png" != "a.png" by { assert "b.png"[0] != "a.png"[0]; }
    assert Select(s.tags, [0.9], s.thresh) == Some(["1girl"]) by {
      assert [0.9][..0] == [];
      assert Select(s.tags, [], s.thresh) == Some([]);
      assert [] + ["1girl"] == ["1girl"];
    }
  }

  lemma RunStepsProcessed(files: seq<string>, step: string -> Step)
    requires |files| > 0 && step(files[0]).Continue?
    ensures RunSteps(files, step).processed ==
      Record(files[0], step(files[0]).outcome).processed + RunSteps(files[1..], step).processed
  {
  }

  lemma RecordProcessed(path: string, o: Outcome)
    ensures Record(path, o).processed == if o.Written? then 1 else 0
  {
  }

  /** On that batch the code as written processes nothing, while the
      intended handling still tags the second image. */
  lemma ServerErrorExample()
    ensures RunSteps(ExampleFiles, ClientSteps(ExampleSettings, ExampleIo(), AsWritten)).processed == 0
    ensures RunSteps(ExampleFiles, ClientSteps(ExampleSettings, ExampleIo(), Intended)).processed == 1
  {
    ExampleSteps();
    var files := ExampleFiles;
    var intended := ClientSteps(ExampleSettings, ExampleIo(), Intended);
    assert files[0] == "a.png" && files[1..] == ["b.png"] && files[1..][1..] == [];
    RunStepsProcessed(files, intended);
    RecordProcessed("a.png", Failed);
    RunStepsProcessed(files[1..], intended);
    RecordProcessed("b.png", Written(["1girl"]));
  }
}
