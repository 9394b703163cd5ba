# Julia voice assistant, modelled in Dafny

The script `main.py` is an offline voice assistant. It reads a line from the
user. It wraps the line in a fixed persona prompt and asks a local language
model for a reply. It deletes chat-template markers such as `<|eot_id|>` from
the reply and strips surrounding whitespace. The text goes to a speech
synthesiser. The script then finds the WAV files the synthesiser wrote for
this turn and sorts them by modification time. For each file it waits for the
file to stop growing and plays it with whatever player the platform offers.
Typing `exit` in any case ends the session.

This project models that glue logic. The language model, the synthesiser, the
clock, the filesystem and the player processes are inputs:

- the text the model generated;
- the time the turn started, in milliseconds;
- the listing of each directory, as `Files.WavFile` records;
- the host's answers (`Playback.Host`).

One module covers each part of the script:

- `Text`: Python's `str.strip()` with no argument, over the exact
  `str.isspace` set, and `str.lower()`.
- `Reply`: the prompt, and one pass of `re.sub(r"<\|[^>]+\|>", "", ...)`. The
  pass is written as a left-to-right scanner (`Scan`). It is proved to be the
  unique leftmost parse of its input, defined without reference to the scanner
  (`IsLeftmostParse`).
- `Discovery`: the turn prefix `reply_<millis>`, the glob `{prefix}_*.wav`,
  and the fallback from the output directory to the working directory.
- `Ordering`: the stable sort by modification time. It is written as an
  in-place insertion sort on an array (`SortChunks`) and proved equal to the
  functional `SortByMtime`. That function is proved sorted, a permutation and
  stable.
- `Playback`: `_play_audio`, meaning the player choice per platform, and the
  conversion of exceptions into warnings.
- `Session`: the stabilisation loop, one turn (`ask`) and the command loop
  (`cli`).

The sort at `main.py:101` uses the modification time alone, and Python's sort
is stable, so files with equal times keep their listing order.
`Ordering.SortByMtime` does the same, and `Ordering.SortByMtimeStable` proves
it.

The persona prompt is kept as written, including the missing space between
"politely." and "Give" (`main.py:14-15`).

## Model

| member | source | states |
|---|---|---|
| `Text.TrimLeft` | main.py:41 | the result is a suffix of the input; every character removed is whitespace; the result does not start with whitespace |
| `Text.TrimRight` | main.py:41 | the result is a prefix of the input; every character removed is whitespace; the result does not end with whitespace |
| `Text.Strip` | main.py:41 | the result is the slice after the leading whitespace; everything outside that slice is whitespace; the result has no whitespace at either end |
| `Text.StripIdentity` | main.py:41 | `strip()` leaves a string unchanged exactly when the string is empty or has no whitespace at either end |
| `Text.StripIdempotent` | main.py:41 | stripping twice equals stripping once |
| `Text.Lower` | main.py:118 | lower-casing keeps the length and folds each character on its own |
| `Reply.Prompt` | main.py:28-32 | the prompt is the persona preamble, a blank line and `User: `, then the input verbatim, then a newline and `Assistant:` |
| `Reply.PromptRoundTrip` | main.py:28-32 | the user's text can always be read back out of the prompt |
| `Reply.PromptInjective` | main.py:28-32 | different inputs give different prompts |
| `Reply.TokenShape` | main.py:40 | an opener (less-than sign, vertical bar), a non-empty run without `>`, and a closer (vertical bar, greater-than sign) make a match of the pattern |
| `Reply.CloseAt` | main.py:40 | the index found is the first `>` at or after the start, or the end of the text |
| `Reply.MatchLen` | main.py:40 | a match at the front is at least 5 characters long and lies inside the text |
| `Reply.MatchLenSpec` | main.py:40 | a prefix of the text is a match exactly when the matcher reports that length, so at most one match starts at any place |
| `Reply.Scan` | main.py:40 | the pieces tile the input exactly, and every deleted piece is a match |
| `Reply.TileDrop` | main.py:40 | deleting a match at the front, followed by a tiling of the rest, tiles the whole text |
| `Reply.TileKeep` | main.py:40 | keeping the first character, followed by a tiling of the rest, tiles the whole text |
| `Reply.ScanIsLeftmostParse` | main.py:40 | a tiling is the leftmost-first parse of the regular-expression substitution exactly when it is the scanner's output |
| `Reply.KeptTextLength` | main.py:40 | the kept text is never longer than what it covers, and equals it when nothing was deleted |
| `Reply.StripTokens` | main.py:40 | the substitution never lengthens the text |
| `Reply.StripTokensNoOpener` | main.py:40 | text in which no less-than sign is followed by a vertical bar passes through the substitution unchanged |
| `Reply.KeepsFirst` | main.py:40 | a first character other than `<` is copied, and the pass continues after it |
| `Reply.StripTokensPlainPrefix` | main.py:40 | text with no `<` in it is copied in front of whatever the substitution makes of the rest |
| `Reply.StripsLeadingToken` | main.py:40 | a marker at the front is deleted, and the pass continues after it |
| `Reply.KeepsLoneAngle` | main.py:40 | a `<` that is not followed by a vertical bar is copied |
| `Reply.StripsTrailingToken` | main.py:40 | plain text followed by one marker loses only the marker |
| `Reply.StripsTokenAfterAngle` | main.py:40 | in `<` + marker + rest, the stray `<` survives and becomes joined to the rest |
| `Reply.NoOpenerInCloser` | main.py:40 | the closing half of a marker around text with no `<` holds no opener |
| `Reply.StripsLoneToken` | main.py:40 | a marker on its own is deleted entirely |
| `Reply.StripTokensNotIdempotent` | main.py:40 | one pass is not a fixpoint: a `<` before a marker around `m`, followed by the closing half of a marker around `n`, becomes the marker around `n`, and a second pass would delete that too |
| `Reply.Clean` | main.py:40-41 | the cleaned reply is never longer than the generated text and has no whitespace at either end |
| `Reply.CleanNoOpener` | main.py:40-41 | a reply with no opener (less-than sign, vertical bar) in it is only stripped of whitespace |
| `Reply.CleansTrailingToken` | main.py:39-41 | an already-stripped reply with no `<` in it, followed by a marker, comes out as the reply itself |
| `ReplyExamples.CleanEndOfTurn` | main.py:39-41 | `Hi there!` followed by the end-of-turn marker `eot_id` is cleaned to `Hi there!` |
| `Discovery.Digits` | main.py:79 | the decimal rendering of the time is non-empty, all digits, and has no leading zero |
| `Discovery.ValueOfDigits` | main.py:79 | reading the decimal rendering back gives the number |
| `Discovery.Prefix` | main.py:79 | the prefix is `reply_` followed by digits only |
| `Discovery.PrefixesDoNotOverlap` | main.py:79-90 | no file name matches the glob of two turns started at different milliseconds |
| `Discovery.GlobAcceptsEveryMiddle` | main.py:90 | every name of the form prefix, `_`, anything, `.wav` matches, and the `*` stands for the middle |
| `Discovery.GlobMatchesOnlyThatShape` | main.py:90 | every matching name has exactly that form |
| `Discovery.Glob` | main.py:90 | a file is in the result exactly when it is in the directory and its name matches |
| `Discovery.GlobKeepsOrder` | main.py:90 | the glob keeps the listing order: globbing a concatenation concatenates the globs |
| `Discovery.Discover` | main.py:89-98 | the files come from the output directory when it has a match, otherwise from the working directory; all of them match; the result is empty exactly when neither directory has a match |
| `DiscoveryExamples.UnrelatedFileIgnored` | main.py:90 | `other_5.wav` is not collected alongside `reply_100_0.wav` and `reply_100_1.wav` |
| `DiscoveryExamples.FallbackToWorkingDirectory` | main.py:93-94 | with no match in the output directory, the match in the working directory is found |
| `Ordering.Insert` | main.py:101 | one insertion step adds exactly one file |
| `Ordering.SortByMtime` | main.py:101 | the sort keeps the number of files |
| `Ordering.InsertPermutes` | main.py:101 | inserting adds exactly the inserted file to the multiset of files |
| `Ordering.InsertKeepsTies` | main.py:101 | inserting keeps the order among files with the same modification time, and puts the new file after those that share its time |
| `Ordering.InsertSorted` | main.py:101 | inserting into a sorted sequence gives a sorted sequence |
| `Ordering.SortByMtimeSorted` | main.py:101 | the result is ordered by modification time |
| `Ordering.SortByMtimePermutes` | main.py:101 | the result is a permutation of the input |
| `Ordering.SortByMtimeStable` | main.py:101 | for every modification time, the files with that time come out in their input order (Python's sort is stable) |
| `Ordering.SortByMtimeOfSorted` | main.py:101 | an already ordered listing is left as it is |
| `Ordering.SortByMtimeIdempotent` | main.py:101 | sorting twice gives the same order as sorting once |
| `Ordering.InsertAt` | main.py:101 | the new file lands right after the last file that is not newer than it |
| `Ordering.MakeRoom` | main.py:101 | the files before the slot that are strictly newer than the new file move one place right; nothing else moves |
| `Ordering.Placed` | main.py:101 | after the shift and the write, the first `i+1` entries are the functional insertion of entry `i` into the first `i` |
| `Ordering.Shifted` | main.py:101 | after the shift and the write, the first `i+1` entries are the files before the slot, the new file, then the shifted files |
| `Ordering.InsertNext` | main.py:101 | one pass of the in-place sort turns the first `i+1` entries into the insertion of entry `i` into the first `i`, and leaves the entries after them alone |
| `Ordering.SortByMtimeStep` | main.py:101 | sorting one more file of the listing is inserting it into the sorted listing so far |
| `Ordering.SortChunks` | main.py:101 | the array ends up sorted in place exactly as `SortByMtime` orders its original contents |
| `Playback.FirstOnPath` | main.py:61-64 | the player found is the first one `which` finds, and the index is the length of the list when none is found |
| `Playback.Choose` | main.py:50-66 | Darwin: `afplay` at its fixed path when it exists, otherwise `open`; Linux: the first of paplay, aplay, ffplay, play on the path, and nothing when none is there or `which` cannot run; Windows: `os.startfile`; any other system: nothing |
| `Playback.PlayAudio` | main.py:48-70 | at most the chosen command is started; `FileNotFoundError` prints the no-player warning and any other exception prints its message, and neither propagates; the notices and warnings appear in order |
| `Session.FirstSettled` | main.py:105-109 | the index of the first sample that sees the file finished, or the bound when no sample does |
| `Session.WaitedForIsFirstSettled` | main.py:105-109 | the loop runs up to and including the first settled pass, otherwise all ten, and it reports settled exactly when one of the ten passes was |
| `Session.WaitedForUnique` | main.py:105-109 | the outcome of the stabilisation loop is determined by the samples |
| `Session.NeverSettledPlaysAfterTen` | main.py:104-111 | a file that never settles is polled ten times and still played |
| `Session.AwaitStable` | main.py:105-109 | the loop stops at the first pass where the size was unchanged and non-zero, and after ten passes at most |
| `Session.PlayOne` | main.py:103-111 | each file is waited for, then the `Playing` line with its path is printed, then it is played as `_play_audio` would |
| `Session.SortedChunks` | main.py:101 | copying the files into an array and sorting it in place gives `SortByMtime` of the listing |
| `Session.PlayChunks` | main.py:103-111 | the files are played one after another, in the given order, each exactly once, and the lines printed are those of each file's turn, in that order |
| `Session.Collect` | main.py:89-94 | the files collected are those `Discover` describes, and the directory used is the one they came from |
| `Session.SortedFilesSampled` | main.py:101-108 | every file that is sorted and played is one of the files found |
| `Session.Ask` | main.py:72-111 | the prompt and cleaned reply are those of `chat`; the no-WAV warning is printed exactly when neither directory has a file of this turn; otherwise every file found is played once, in sorted order, from the directory it was found in; the lines printed are the no-WAV warning alone, or else the lines of each file's turn in order |
| `Session.IsExitSpellings` | main.py:118 | an input ends the session exactly when it is `exit` in any mix of upper and lower case; no padding, no other length |
| `Session.Cli` | main.py:113-120 | the inputs handed to `ask` are exactly the inputs before the first exit command, in order; the loop stops on an exit command or at the end of the input |

## Left out

- Model loading and generation (`mlx_lm.load` and `generate`, and `MAX_TOKENS`) are left out: the generated text is an input of `Clean` and `Session.Ask`.
- The speech synthesiser (`generate_audio`) and its arguments are left out: its effect is the directory listings given to `Session.Ask`.
- `Path.home()`, `mkdir` and `time.sleep` are left out, because they only prepare the files that appear in the listings.
- The clock is an input. `int(time.time()*1000)` appears as the non-negative integer `millis`.
- Each file's size readings are given in advance, one `Files.Sample` per pass. `Session.Sampled` asks for ten of them for every matching file, because the loop may read that many. A file that vanishes between listing and `stat()` is not modelled; the script would raise there.
- Modification times are integers, not the floats `stat()` returns. Only their order matters to the sort.
- The process calls are not executed: `subprocess.run`, `which` and `os.startfile`. The host's answers are inputs. What starting a player does is given per file as `Files.Launch`.
- The exit status of a player is not checked by the script. The model therefore does not observe it.
- Exceptions from `Path.exists` or from a `which` probe other than a missing `which` are not modelled.
- Printing is modelled as the list of lines a member produces. The two banner lines `cli` prints first are left out.
- Session.Cli: end of input ends the model's loop. In the script, `input()` would raise `EOFError` there.
- `Session.Cli` returns the inputs it hands to `ask` rather than running each turn; `Session.Ask` models one turn.
- Text.Lower: folds ASCII letters only. Python's `lower()` covers all of Unicode. The exit test is unaffected, because no character outside ASCII lower-cases to a string made only of `e`, `x`, `i` and `t`.
- `Discovery.MatchesGlob` matches case-sensitively. On Windows, `pathlib` globbing ignores case, so there a file named `.WAV` would also be collected.
- `Discovery.MatchesGlob` matches the prefix literally. This is exact for the prefixes the script builds, which contain only letters, digits and `_`.
- Paths are strings joined with `/`. The `Path` type, resolution and separators are left out.
