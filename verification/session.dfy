/** One conversation turn (`JuliaMPS.ask`) and the command-line loop around it
    (`JuliaMPS.cli`). The language model, the speech synthesiser, the clock and
    the filesystem are inputs: the text the model generated, the time the turn
    started, and the listings of the two directories. */
module Session {
  import opened Text
  import opened Files
  import opened Reply
  import opened Discovery
  import opened Ordering
  import opened Playback

  /** The stabilisation loop reads the size at most this many times. */
  const MaxPolls: nat := 10

  /** The warning printed when neither directory holds a file of the reply. */
  const NoWavWarning: string := "[WARN] No WAV created for reply."

  /** One pass sees the file done: the size did not change over the sleep and is
      not zero. */
  predicate Settled(s: Sample)
  {
    s.before == s.after && s.before > 0
  }

  /** The stabilisation loop ran `polls` passes and `settled` says whether the
      last of them saw the file done: it stops at the first settled pass, and
      otherwise after the tenth. */
  predicate WaitedFor(sizes: seq<Sample>, polls: nat, settled: bool)
  {
    1 <= polls <= MaxPolls && polls <= |sizes| &&
    (forall k :: 0 <= k < polls - 1 ==> !Settled(sizes[k])) &&
    (settled <==> Settled(sizes[polls - 1])) &&
    (!settled ==> polls == MaxPolls)
  }

  /** The index of the first settled pass among the first `n`, or `n` when none
      of them settles. */
  function FirstSettled(sizes: seq<Sample>, n: nat): (k: nat)
    requires n <= |sizes|
    ensures k <= n
    ensures forall j :: 0 <= j < k ==> !Settled(sizes[j])
    ensures k < n ==> Settled(sizes[k])
  {
    if n == 0 then 0
    else if FirstSettled(sizes, n - 1) < n - 1 then FirstSettled(sizes, n - 1)
    else if Settled(sizes[n - 1]) then n - 1
    else n
  }

  /** The outcome of the loop in closed form: the passes run up to and including
      the first settled one, or all ten, and the file counts as settled exactly
      when one of the ten passes saw it so. */
  lemma {:induction false} WaitedForIsFirstSettled(sizes: seq<Sample>, polls: nat, settled: bool)
    requires MaxPolls <= |sizes|
    ensures WaitedFor(sizes, polls, settled) <==>
      var k := FirstSettled(sizes, MaxPolls);
      polls == (if k < MaxPolls then k + 1 else MaxPolls) && settled == (k < MaxPolls)
  {
    var k := FirstSettled(sizes, MaxPolls);
    if WaitedFor(sizes, polls, settled) {
      if settled {
        assert Settled(sizes[polls - 1]);
        assert k == polls - 1;
      } else {
        assert forall j :: 0 <= j < MaxPolls ==> !Settled(sizes[j]) by {
          forall j | 0 <= j < MaxPolls ensures !Settled(sizes[j]) {
            if j < polls - 1 {
            } else {
              assert j == polls - 1;
            }
          }
        }
        assert k == MaxPolls;
      }
    }
  }

  /** The loop always ends with a definite outcome: at most one pair satisfies
      `WaitedFor`. */
  lemma WaitedForUnique(sizes: seq<Sample>, p1: nat, s1: bool, p2: nat, s2: bool)
    requires MaxPolls <= |sizes|
    requires WaitedFor(sizes, p1, s1) && WaitedFor(sizes, p2, s2)
    ensures p1 == p2 && s1 == s2
  {
    WaitedForIsFirstSettled(sizes, p1, s1);
    WaitedForIsFirstSettled(sizes, p2, s2);
  }

  /** The loop gives up after the tenth pass, playing the file anyway. */
  lemma NeverSettledPlaysAfterTen(sizes: seq<Sample>, polls: nat, settled: bool)
    requires MaxPolls <= |sizes|
    requires forall k :: 0 <= k < MaxPolls ==> !Settled(sizes[k])
    requires WaitedFor(sizes, polls, settled)
    ensures polls == MaxPolls && !settled
  {
    WaitedForIsFirstSettled(sizes, polls, settled);
  }

  /** Waits until the file's size stops growing: one pass per sample, at most
      ten, stopping at the first pass that sees the file done. */
  method AwaitStable(sizes: seq<Sample>) returns (polls: nat, settled: bool)
    requires MaxPolls <= |sizes|
    ensures WaitedFor(sizes, polls, settled)
  {
    polls := 0;
    settled := false;
    while polls < MaxPolls
      invariant 0 <= polls <= MaxPolls
      invariant forall k :: 0 <= k < polls ==> !Settled(sizes[k])
      invariant !settled
    {
      var sample := sizes[polls];
      polls := polls + 1;
      if sample.after == sample.before && sample.before > 0 {
        settled := true;
        break;
      }
    }
  }

  /** What the turn did with one file: the file, the path it was played from,
      how many passes the stabilisation loop took and whether the last one saw
      the file done, what playing it did, and what was printed. */
  datatype Step = Step(file: WavFile, path: string, polls: nat, settled: bool, outcome: Outcome, log: seq<string>)

  /** The directory the reply's files were found in. */
  function Folder(prefix: string, outputDir: seq<WavFile>, outPath: string, cwdPath: string): string
  {
    if HasMatch(prefix, outputDir) then outPath else cwdPath
  }

  /** The step for `f`: its path in `folder`, a completed stabilisation loop,
      the debug line with the path, and then exactly what `_play_audio` does. */
  predicate PlayedFile(host: Host, folder: string, f: WavFile, s: Step)
  {
    s.file == f && s.path == folder + "/" + f.name &&
    WaitedFor(f.sizes, s.polls, s.settled) &&
    |s.log| >= 1 && s.log[0] == "[DEBUG] Playing " + s.path &&
    PlayedAsChosen(host, s.path, f.launch, s.outcome, s.log[1..])
  }

  /** Every file a turn may poll holds a sample for each of the ten passes. */
  predicate Sampled(prefix: string, dir: seq<WavFile>)
  {
    forall f :: f in dir && MatchesGlob(prefix, f.name) ==> MaxPolls <= |f.sizes|
  }

  /** Waits for one file and plays it: the stabilisation loop, the debug line
      naming the path, then `_play_audio`. */
  method PlayOne(wav: WavFile, folder: string, host: Host) returns (step: Step)
    requires MaxPolls <= |wav.sizes|
    ensures PlayedFile(host, folder, wav, step)
  {
    var polls, settled := AwaitStable(wav.sizes);
    var path := folder + "/" + wav.name;
    var outcome, log := PlayAudio(host, path, wav.launch);
    step := Step(wav, path, polls, settled, outcome, ["[DEBUG] Playing " + path] + log);
    assert step.log[1..] == log;
  }

  /** `chunks.sort(key=...)`: copies the listing into an array and sorts it in
      place by modification time. */
  method SortedChunks(chunks: seq<WavFile>) returns (sorted: seq<WavFile>)
    ensures sorted == SortByMtime(chunks)
  {
    var a := new WavFile[|chunks|](i requires 0 <= i < |chunks| => chunks[i]);
    assert a[..] == chunks;
    SortChunks(a);
    sorted := a[..];
  }

  /** Everything the steps printed, one step after another. */
  function Printed(steps: seq<Step>): seq<string>
  {
    if steps == [] then [] else Printed(steps[..|steps| - 1]) + steps[|steps| - 1].log
  }

  /** Waits for and plays each file, in the order given; `log` is everything
      printed on the way. */
  method PlayChunks(files: seq<WavFile>, folder: string, host: Host) returns (steps: seq<Step>, log: seq<string>)
    requires forall f :: f in files ==> MaxPolls <= |f.sizes|
    ensures |steps| == |files|
    ensures forall k :: 0 <= k < |steps| ==> PlayedFile(host, folder, files[k], steps[k])
    ensures log == Printed(steps)
  {
    steps := [];
    log := [];
    var i := 0;
    while i < |files|
      invariant 0 <= i <= |files|
      invariant |steps| == i
      invariant forall k :: 0 <= k < i ==> PlayedFile(host, folder, files[k], steps[k])
      invariant log == Printed(steps)
    {
      var step := PlayOne(files[i], folder, host);
      assert (steps + [step])[..i] == steps;
      steps := steps + [step];
      log := log + step.log;
      i := i + 1;
    }
  }

  /** The glob over the output directory, falling back to the working
      directory when it finds nothing; also says which directory was used. */
  method Collect(prefix: string, outputDir: seq<WavFile>, cwd: seq<WavFile>, outPath: string, cwdPath: string)
    returns (chunks: seq<WavFile>, folder: string)
    ensures chunks == Discover(prefix, outputDir, cwd)
    ensures folder == Folder(prefix, outputDir, outPath, cwdPath)
  {
    chunks := Glob(prefix, outputDir);
    folder := outPath;
    if chunks == [] {
      chunks := Glob(prefix, cwd);
      folder := cwdPath;
    }
    assert HasMatch(prefix, outputDir) ==> chunks != [] by {
      if HasMatch(prefix, outputDir) {
        var f :| f in outputDir && MatchesGlob(prefix, f.name);
        assert f in Glob(prefix, outputDir);
      }
    }
  }

  /** Every file the turn sorts and plays has its ten samples. */
  lemma SortedFilesSampled(prefix: string, outputDir: seq<WavFile>, cwd: seq<WavFile>)
    requires Sampled(prefix, outputDir) && Sampled(prefix, cwd)
    ensures forall f :: f in SortByMtime(Discover(prefix, outputDir, cwd)) ==> MaxPolls <= |f.sizes|
  {
    var chunks := Discover(prefix, outputDir, cwd);
    SortByMtimePermutes(chunks);
    forall f | f in SortByMtime(chunks) ensures MaxPolls <= |f.sizes| {
      assert f in multiset(SortByMtime(chunks));
      assert f in chunks;
    }
  }

  /** One turn. The prompt and the cleaned reply are those `chat` builds; the
      reply's files are found, sorted in place by modification time, and each
      in turn is waited for and played. When neither directory holds any, the
      warning is printed and nothing is played. `log` is every line the turn
      prints. */
  method Ask(user: string, generated: string, millis: nat,
             outputDir: seq<WavFile>, cwd: seq<WavFile>, outPath: string, cwdPath: string, host: Host)
    returns (prompt: string, reply: string, noWav: bool, steps: seq<Step>, log: seq<string>)
    requires Sampled(Prefix(millis), outputDir) && Sampled(Prefix(millis), cwd)
    ensures prompt == Prompt(user) && reply == Clean(generated)
    ensures noWav <==> Discover(Prefix(millis), outputDir, cwd) == []
    ensures |steps| == |Discover(Prefix(millis), outputDir, cwd)|
    ensures forall k :: 0 <= k < |steps| ==>
      PlayedFile(host, Folder(Prefix(millis), outputDir, outPath, cwdPath),
                 SortByMtime(Discover(Prefix(millis), outputDir, cwd))[k], steps[k])
    ensures log == if noWav then [NoWavWarning] else Printed(steps)
  {
    prompt := Prompt(user);
    reply := Clean(generated);
    var prefix := Prefix(millis);
    var chunks, folder := Collect(prefix, outputDir, cwd, outPath, cwdPath);
    noWav := chunks == [];
    if noWav {
      steps := [];
      log := [NoWavWarning];
    } else {
      var sorted := SortedChunks(chunks);
      SortedFilesSampled(prefix, outputDir, cwd);
      steps, log := PlayChunks(sorted, folder, host);
    }
  }

  /** The exit test: the input, lower-cased, is `exit`. */
  predicate IsExit(s: string)
  {
    Lower(s) == "exit"
  }

  /** Exactly the four-letter spellings of `exit` in any mix of cases end the
      session; nothing longer, shorter or padded with spaces does. */
  lemma IsExitSpellings(s: string)
    ensures IsExit(s) <==>
      |s| == 4 && (s[0] == 'e' || s[0] == 'E') && (s[1] == 'x' || s[1] == 'X') &&
      (s[2] == 'i' || s[2] == 'I') && (s[3] == 't' || s[3] == 'T')
  {
    if |s| == 4 {
      var l := Lower(s);
      if (s[0] == 'e' || s[0] == 'E') && (s[1] == 'x' || s[1] == 'X') &&
         (s[2] == 'i' || s[2] == 'I') && (s[3] == 't' || s[3] == 'T') {
        assert l == [l[0], l[1], l[2], l[3]];
      }
    }
  }

  /** The read-evaluate loop: reads inputs until one is `exit`, handing every
      other input to a turn. `asked` is the inputs handed on, in order;
      `exited` says whether an `exit` ended the loop rather than the end of
      the input. */
  method Cli(inputs: seq<string>) returns (asked: seq<string>, exited: bool)
    ensures |asked| <= |inputs| && asked == inputs[..|asked|]
    ensures forall k :: 0 <= k < |asked| ==> !IsExit(asked[k])
    ensures exited <==> |asked| < |inputs|
    ensures exited ==> IsExit(inputs[|asked|])
  {
    asked := [];
    exited := false;
    var i := 0;
    while i < |inputs|
      invariant 0 <= i <= |inputs|
      invariant asked == inputs[..i]
      invariant forall k :: 0 <= k < i ==> !IsExit(inputs[k])
    {
      var user := inputs[i];
      if Lower(user) == "exit" {
        exited := true;
        break;
      }
      asked := asked + [user];
      i := i + 1;
    }
  }
}
