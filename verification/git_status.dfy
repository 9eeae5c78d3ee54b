/** The `git_status` tool: it reads the output of `git status --porcelain=v1`
    and sorts every changed path into one of four lists. In the porcelain v1
    (short) format each line is a two-character `XY` status code, a space,
    and the path: `X` is the index (staged) column, `Y` the worktree column. */
module GitStatus {
  import opened Results
  import PyText
  import Seqs

  /** The four lists the tool returns. */
  datatype Bucket = Staged | Unstaged | Untracked | Conflicts

  /** What the classification loop does with one line: put its path in a
      bucket, skip it (a code of two spaces), or fail on it because the code
      is too short to index (`code[0]` or `code[1]` raises). */
  datatype LineClass = InBucket(bucket: Bucket) | Skipped | Malformed

  /** The captured result of running git: exit status and both output streams. */
  datatype GitRun = GitRun(returnCode: int, stdout: string, stderr: string)

  datatype Status = Status(staged: seq<string>, unstaged: seq<string>, untracked: seq<string>, conflicts: seq<string>)

  /** Why the tool answered `success: False`: git itself failed (the error is
      its stderr), or a line was too short and indexing it raised. */
  datatype GitError = CommandFailed(stderr: string) | IndexOutOfRange

  /** `line[:2]`: the status code, shorter than two characters on a short line. */
  function Code(line: string): string {
    if |line| <= 2 then line else line[..2]
  }

  /** `line[3:]`: the path after the code and its separating space. */
  function PathOf(line: string): (path: string)
    ensures |line| >= 3 ==> line == line[..3] + path
    ensures |line| <= 3 ==> path == []
  {
    if |line| <= 3 then [] else line[3..]
  }

  /** The rule chain applied to one line, in the source's order: `??`, then
      any `U`, then the index column, then the worktree column. The contract
      restates the outcome column by column (X = line[0], Y = line[1]). */
  function Classify(line: string): (c: LineClass)
    ensures c == InBucket(Untracked) <==> |line| >= 2 && line[0] == '?' && line[1] == '?'
    ensures c == InBucket(Conflicts) <==>
              && !(|line| >= 2 && line[0] == '?' && line[1] == '?')
              && ((|line| >= 1 && line[0] == 'U') || (|line| >= 2 && line[1] == 'U'))
    ensures c == InBucket(Staged) <==>
              && |line| >= 1 && line[0] != ' ' && line[0] != 'U'
              && !(|line| >= 2 && (line[1] == 'U' || (line[0] == '?' && line[1] == '?')))
    ensures c == InBucket(Unstaged) <==> |line| >= 2 && line[0] == ' ' && line[1] != ' ' && line[1] != 'U'
    ensures c == Skipped <==> |line| >= 2 && line[0] == ' ' && line[1] == ' '
    ensures c == Malformed <==> |line| == 0 || (|line| == 1 && line[0] == ' ')
  {
    var code := Code(line);
    if code == "??" then InBucket(Untracked)
    else if 'U' in code then InBucket(Conflicts)
    else if |code| == 0 then Malformed
    else if code[0] != ' ' then InBucket(Staged)
    else if |code| == 1 then Malformed
    else if code[1] != ' ' then InBucket(Unstaged)
    else Skipped
  }

  /** Reference definition of one output list: the paths of the lines that
      classify into bucket `b`, in input order. */
  function Select(lines: seq<string>, b: Bucket): seq<string> {
    if |lines| == 0 then [] else Contribution(lines[0], b) + Select(lines[1..], b)
  }

  /** What one line adds to bucket `b`: its path, or nothing. */
  function Contribution(line: string, b: Bucket): seq<string> {
    if Classify(line) == InBucket(b) then [PathOf(line)] else []
  }

  predicate IsSkipped(line: string) {
    Classify(line) == Skipped
  }

  predicate IsMalformed(line: string) {
    Classify(line) == Malformed
  }

  /** Appending a line to the input extends exactly the list it belongs to. */
  lemma {:induction false} SelectSnoc(lines: seq<string>, line: string, b: Bucket)
    ensures Select(lines + [line], b) == Select(lines, b) + Contribution(line, b)
    decreases |lines|
  {
    if |lines| == 0 {
      assert lines + [line] == [line];
    } else {
      var longer := lines + [line];
      assert longer[0] == lines[0];
      assert longer[1..] == lines[1..] + [line];
      SelectSnoc(lines[1..], line, b);
      calc {
        Select(longer, b);
        Contribution(lines[0], b) + Select(lines[1..] + [line], b);
        Contribution(lines[0], b) + (Select(lines[1..], b) + Contribution(line, b));
        (Contribution(lines[0], b) + Select(lines[1..], b)) + Contribution(line, b);
      }
    }
  }

  /** The four reference lists of a run of lines. */
  function Lists(lines: seq<string>): Status {
    Status(Select(lines, Staged), Select(lines, Unstaged), Select(lines, Untracked), Select(lines, Conflicts))
  }

  /** One more line extends the list of its bucket and no other. */
  lemma ListsSnoc(lines: seq<string>, line: string)
    ensures var s := Lists(lines); var p := [PathOf(line)];
            Lists(lines + [line]) == match Classify(line)
              case InBucket(Staged) => s.(staged := s.staged + p)
              case InBucket(Unstaged) => s.(unstaged := s.unstaged + p)
              case InBucket(Untracked) => s.(untracked := s.untracked + p)
              case InBucket(Conflicts) => s.(conflicts := s.conflicts + p)
              case _ => s
  {
    SelectSnoc(lines, line, Staged);
    SelectSnoc(lines, line, Unstaged);
    SelectSnoc(lines, line, Untracked);
    SelectSnoc(lines, line, Conflicts);
  }

  /** The classification loop over already-split lines. It fails as soon as a
      line is too short to index; otherwise every list holds exactly the
      paths of its bucket's lines, in input order. */
  method ClassifyLines(lines: seq<string>) returns (r: Result<Status, GitError>)
    ensures r.Failure? <==> exists k :: 0 <= k < |lines| && Classify(lines[k]) == Malformed
    ensures r.Failure? ==> r.error == IndexOutOfRange
    ensures r.Success? ==>
              r.value == Status(Select(lines, Staged), Select(lines, Unstaged),
                                Select(lines, Untracked), Select(lines, Conflicts))
  {
    var staged, unstaged, untracked, conflicts := [], [], [], [];
    var i := 0;
    while i < |lines|
      invariant 0 <= i <= |lines|
      invariant forall k :: 0 <= k < i ==> Classify(lines[k]) != Malformed
      invariant Status(staged, unstaged, untracked, conflicts) == Lists(lines[..i])
    {
      var line := lines[i];
      var c := Classify(line);
      if c == Malformed {
        return Failure(IndexOutOfRange);
      } else if c == InBucket(Untracked) {
        untracked := untracked + [PathOf(line)];
      } else if c == InBucket(Conflicts) {
        conflicts := conflicts + [PathOf(line)];
      } else if c == InBucket(Staged) {
        staged := staged + [PathOf(line)];
      } else if c == InBucket(Unstaged) {
        unstaged := unstaged + [PathOf(line)];
      }
      assert lines[..i + 1] == lines[..i] + [line];
      ListsSnoc(lines[..i], line);
      i := i + 1;
    }
    assert lines[..|lines|] == lines;
    return Success(Status(staged, unstaged, untracked, conflicts));
  }

  /** The whole tool over a captured git run: a non-zero exit status yields
      git's stderr as the error and no lists; otherwise stdout is split with
      `splitlines` and classified. */
  method Run(run: GitRun) returns (r: Result<Status, GitError>)
    ensures run.returnCode != 0 ==> r == Failure(CommandFailed(run.stderr))
    ensures run.returnCode == 0 ==>
              var lines := PyText.SplitLines(run.stdout);
              && (r.Failure? <==> exists k :: 0 <= k < |lines| && Classify(lines[k]) == Malformed)
              && (r.Failure? ==> r.error == IndexOutOfRange)
              && (r.Success? ==>
                    r.value == Status(Select(lines, Staged), Select(lines, Unstaged),
                                      Select(lines, Untracked), Select(lines, Conflicts)))
  {
    if run.returnCode != 0 {
      return Failure(CommandFailed(run.stderr));
    }
    r := ClassifyLines(PyText.SplitLines(run.stdout));
  }

  /** Every line is counted exactly once: the four lists together with the
      skipped and malformed lines account for all lines, so no line lands in
      two lists. */
  lemma {:induction false} BucketsPartitionLines(lines: seq<string>)
    ensures |Select(lines, Staged)| + |Select(lines, Unstaged)| + |Select(lines, Untracked)|
            + |Select(lines, Conflicts)| + Seqs.CountWhere(lines, IsSkipped) + Seqs.CountWhere(lines, IsMalformed)
            == |lines|
    decreases |lines|
  {
    if |lines| > 0 {
      BucketsPartitionLines(lines[1..]);
    }
  }
}
