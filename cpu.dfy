/** The list logic of the simpler CPU tagger script: building the target list
    from the command-line arguments, and the per-file detect-and-write loop,
    which keeps no counters and ignores the writer's result. */
module Cpu {
  import opened Wrappers
  import opened Text
  import opened Tagging

  /** What one argument contributes: all its `glob.glob` matches, or the
      argument itself when it matches nothing. */
  function Expand(p: string, glob: string -> seq<string>): seq<string>
  {
    var expanded := glob(p);
    if expanded != [] then expanded else [p]
  }

  /** `target_files` before the final sort, in the order it is built. */
  function Targets(args: seq<string>, glob: string -> seq<string>): seq<string>
  {
    if |args| == 0 then []
    else
      var n := |args| - 1;
      Targets(args[..n], glob) + Expand(args[n], glob)
  }

  /** A path is a target exactly when some argument contributes it: as one of
      its matches, or as the literal argument when it has no match. */
  lemma {:induction false} TargetsMembership(args: seq<string>, glob: string -> seq<string>)
    ensures forall x :: x in Targets(args, glob) <==>
      exists k :: 0 <= k < |args| && (if glob(args[k]) != [] then x in glob(args[k]) else x == args[k])
  {
    if |args| > 0 {
      var n := |args| - 1;
      TargetsMembership(args[..n], glob);
      forall x ensures x in Targets(args, glob) <==>
        exists k :: 0 <= k < |args| && (if glob(args[k]) != [] then x in glob(args[k]) else x == args[k])
      {
        if x in Targets(args, glob) {
          if x in Targets(args[..n], glob) {
            var k :| 0 <= k < n && (if glob(args[..n][k]) != [] then x in glob(args[..n][k]) else x == args[..n][k]);
            assert args[..n][k] == args[k];
          } else {
            assert x in Expand(args[n], glob);
          }
        }
        if exists k :: 0 <= k < |args| && (if glob(args[k]) != [] then x in glob(args[k]) else x == args[k]) {
          var k :| 0 <= k < |args| && (if glob(args[k]) != [] then x in glob(args[k]) else x == args[k]);
          if k < n {
            assert args[..n][k] == args[k];
            assert x in Targets(args[..n], glob);
          } else {
            assert x in Expand(args[n], glob);
          }
        }
      }
    }
  }

  /** The target list of `main`: each argument's matches, or the argument
      itself, then `sorted(list(set(target_files)))`. */
  method BuildTargets(args: seq<string>, glob: string -> seq<string>) returns (targets: seq<string>)
    ensures targets == SortedUnique(Targets(args, glob))
    ensures StrictlySorted(targets)
    ensures forall x :: x in targets <==>
      exists k :: 0 <= k < |args| && (if glob(args[k]) != [] then x in glob(args[k]) else x == args[k])
  {
    var targetFiles: seq<string> := [];
    for i := 0 to |args|
      invariant targetFiles == Targets(args[..i], glob)
    {
      var pathStr := args[i];
      var expanded := glob(pathStr);
      assert args[..i + 1][..i] == args[..i];
      if expanded != [] {
        targetFiles := targetFiles + expanded;
      } else {
        targetFiles := targetFiles + [pathStr];
      }
    }
    assert args[..|args|] == args;
    TargetsMembership(args, glob);
    targets := SortedUnique(targetFiles);
  }

  /** The CPU script's collaborators: whether a path is an existing regular
      file, and the classifier (`None` when opening or classifying raises). */
  datatype CpuIo = CpuIo(isFile: string -> bool, infer: string -> Option<seq<real>>)

  /** The write call the loop makes for one target, if any: none for a path
      that is not a file, for a failed classification or selection, and for
      an empty selection. */
  function CpuWrite(path: string, thresh: real, tags: seq<string>, io: CpuIo): Option<WriteCall>
  {
    if !io.isFile(path) then None
    else
      match io.infer(path)
      case None => None
      case Some(probs) =>
        match Select(tags, probs, thresh)
        case None => None
        case Some(d) => if d == [] then None else Some(WriteCall(path, d))
  }

  function CpuWrites(targets: seq<string>, thresh: real, tags: seq<string>, io: CpuIo): seq<WriteCall>
  {
    if |targets| == 0 then []
    else
      var n := |targets| - 1;
      CpuWrites(targets[..n], thresh, tags, io) +
        (match CpuWrite(targets[n], thresh, tags, io) case None => [] case Some(w) => [w])
  }

  /** The loop of `main` over the targets. */
  method RunCpu(targets: seq<string>, thresh: real, tags: seq<string>, io: CpuIo) returns (writes: seq<WriteCall>)
    ensures writes == CpuWrites(targets, thresh, tags, io)
  {
    writes := [];
    for i := 0 to |targets|
      invariant writes == CpuWrites(targets[..i], thresh, tags, io)
    {
      var imgPath := targets[i];
      assert targets[..i + 1][..i] == targets[..i];
      if !io.isFile(imgPath) {
        continue;
      }
      match io.infer(imgPath) {
        case None =>
        case Some(probs) =>
          var detected := SelectTags(tags, probs, thresh);
          match detected {
            case None =>
            case Some(d) =>
              if d != [] {
                writes := writes + [WriteCall(imgPath, d)];
              }
          }
      }
    }
    assert targets[..|targets|] == targets;
  }

  /** Every write call goes to a target that is a file, with the non-empty
      selection made from its probabilities, so the writer always reaches
      exiftool with the tags joined by `", "`. */
  lemma {:induction false} CpuWritesFacts(targets: seq<string>, thresh: real, tags: seq<string>, io: CpuIo)
    ensures forall w :: w in CpuWrites(targets, thresh, tags, io) ==>
      && w.path in targets
      && io.isFile(w.path)
      && w.tags != []
      && XmpSubject(w.tags) == Some(Join(w.tags))
      && io.infer(w.path).Some?
      && Select(tags, io.infer(w.path).value, thresh) == Some(w.tags)
  {
    if |targets| > 0 {
      var n := |targets| - 1;
      CpuWritesFacts(targets[..n], thresh, tags, io);
      assert forall x :: x in targets[..n] ==> x in targets;
    }
  }

  /** Conversely, a target that is a file and whose selection is non-empty
      gets a write call with that selection. */
  lemma {:induction false} CpuEligibleWritten(targets: seq<string>, thresh: real, tags: seq<string>, io: CpuIo, k: int, d: seq<string>)
    requires 0 <= k < |targets| && io.isFile(targets[k])
    requires io.infer(targets[k]).Some? && Select(tags, io.infer(targets[k]).value, thresh) == Some(d) && d != []
    ensures WriteCall(targets[k], d) in CpuWrites(targets, thresh, tags, io)
  {
    var n := |targets| - 1;
    if k < n {
      assert targets[..n][k] == targets[k];
      CpuEligibleWritten(targets[..n], thresh, tags, io, k, d);
    } else {
      assert CpuWrite(targets[k], thresh, tags, io) == Some(WriteCall(targets[k], d));
    }
  }

  /** A target that is not a file, or whose selection is empty, gets no write call. */
  lemma {:induction false} NoWriteWithoutTags(targets: seq<string>, thresh: real, tags: seq<string>, io: CpuIo, k: int)
    requires 0 <= k < |targets|
    requires !io.isFile(targets[k]) ||
      (io.infer(targets[k]).Some? && Select(tags, io.infer(targets[k]).value, thresh) == Some([]))
    ensures forall w :: w in CpuWrites(targets, thresh, tags, io) ==> w.path != targets[k]
  {
    CpuWritesFacts(targets, thresh, tags, io);
  }
}
