/** Finding the files of one reply: the glob `{prefix}_*.wav` over the output
    directory, with the working directory as a fallback (`JuliaMPS.ask`). A
    directory is its listing, in listing order. */
module Discovery {
  import opened Files

  /** The decimal digits of `n`, most significant first, without leading zeros. */
  function Digits(n: nat): (d: string)
    ensures d != []
    ensures forall i :: 0 <= i < |d| ==> '0' <= d[i] <= '9'
    ensures n > 0 ==> d[0] != '0'
    decreases n
  {
    if n < 10 then [('0' as int + n) as char]
    else Digits(n / 10) + [('0' as int + n % 10) as char]
  }

  /** The number a string of decimal digits spells. */
  function Value(d: string): nat
  {
    if d == [] then 0
    else Value(d[..|d| - 1]) * 10 + (if '0' <= d[|d| - 1] <= '9' then d[|d| - 1] as int - '0' as int else 0)
  }

  /** Reading the digits back gives the number. */
  lemma {:induction false} ValueOfDigits(n: nat)
    ensures Value(Digits(n)) == n
    decreases n
  {
    if n >= 10 {
      var d := Digits(n);
      assert d[..|d| - 1] == Digits(n / 10);
      ValueOfDigits(n / 10);
    }
  }

  /** The file prefix of one turn, `reply_` and the time in milliseconds. */
  function Prefix(millis: nat): (p: string)
    ensures |p| > 6 && p[..6] == "reply_"
    ensures forall i :: 6 <= i < |p| ==> '0' <= p[i] <= '9'
  {
    "reply_" + Digits(millis)
  }

  /** The glob `{prefix}_*.wav` on one name: the name starts with the prefix and
      an underscore, ends with `.wav`, and the `*` covers what lies between, which
      may be empty but may not overlap either end. The prefix is matched
      literally; the prefixes the script builds are `reply_` and digits, which
      hold no glob metacharacters. */
  predicate MatchesGlob(prefix: string, name: string)
  {
    |name| >= |prefix| + 5 &&
    name[..|prefix| + 1] == prefix + "_" &&
    name[|name| - 4..] == ".wav"
  }

  /** The part of a matching name that the `*` stands for. */
  function Star(prefix: string, name: string): string
    requires MatchesGlob(prefix, name)
  {
    name[|prefix| + 1..|name| - 4]
  }

  /** Every name built as `prefix + "_" + middle + ".wav"` matches, and the `*`
      recovers the middle. */
  lemma GlobAcceptsEveryMiddle(prefix: string, middle: string)
    ensures MatchesGlob(prefix, prefix + "_" + middle + ".wav")
    ensures Star(prefix, prefix + "_" + middle + ".wav") == middle
  {
    var name := prefix + "_" + middle + ".wav";
    assert name[..|prefix| + 1] == prefix + "_";
    assert name[|name| - 4..] == ".wav";
    assert name[|prefix| + 1..|name| - 4] == middle;
  }

  /** Every matching name is built that way: the prefix, an underscore, what the
      `*` covers and `.wav`. */
  lemma GlobMatchesOnlyThatShape(prefix: string, name: string)
    requires MatchesGlob(prefix, name)
    ensures name == prefix + "_" + Star(prefix, name) + ".wav"
  {
    assert name == name[..|prefix| + 1] + name[|prefix| + 1..|name| - 4] + name[|name| - 4..];
  }

  /** `list(directory.glob(f"{prefix}_*.wav"))`: the matching entries, in listing
      order. Exactly the matching entries of the directory are kept. */
  function Glob(prefix: string, dir: seq<WavFile>): (r: seq<WavFile>)
    ensures |r| <= |dir|
    ensures forall f :: f in r <==> f in dir && MatchesGlob(prefix, f.name)
  {
    if dir == [] then []
    else (if MatchesGlob(prefix, dir[0].name) then [dir[0]] else []) + Glob(prefix, dir[1..])
  }

  /** Globbing a listing made of two parts globs each part and keeps them in
      order: the glob never reorders entries. */
  lemma {:induction false} GlobKeepsOrder(prefix: string, a: seq<WavFile>, b: seq<WavFile>)
    ensures Glob(prefix, a + b) == Glob(prefix, a) + Glob(prefix, b)
  {
    if a == [] {
      assert a + b == b;
    } else {
      assert (a + b)[1..] == a[1..] + b;
      GlobKeepsOrder(prefix, a[1..], b);
    }
  }

  /** Two digit-terminated prefixes that both head `name`, each followed by an
      underscore, are the same prefix: an underscore is not a digit. */
  lemma SameRun(p: string, q: string, name: string)
    requires 6 < |p| && 6 < |q|
    requires forall i :: 6 <= i < |p| ==> '0' <= p[i] <= '9'
    requires forall i :: 6 <= i < |q| ==> '0' <= q[i] <= '9'
    requires |p| < |name| && name[..|p| + 1] == p + "_"
    requires |q| < |name| && name[..|q| + 1] == q + "_"
    ensures p == q
  {
    assert name[|p|] == (p + "_")[|p|] == '_';
    assert name[|q|] == (q + "_")[|q|] == '_';
    if |p| < |q| {
      assert false;
    } else if |q| < |p| {
      assert false;
    }
    assert forall i :: 0 <= i < |p| ==> p[i] == (p + "_")[i] == name[i] == (q + "_")[i] == q[i];
  }

  /** No name matches the glob of two different turns: the digits of the prefix
      end at the first underscore after `reply_`, so the name fixes the time. */
  lemma PrefixesDoNotOverlap(m: nat, n: nat, name: string)
    requires MatchesGlob(Prefix(m), name) && MatchesGlob(Prefix(n), name)
    ensures m == n
  {
    var p, q := Prefix(m), Prefix(n);
    SameRun(p, q, name);
    assert Digits(m) == p[6..];
    assert Digits(n) == q[6..];
    ValueOfDigits(m);
    ValueOfDigits(n);
  }

  /** True when the listing holds at least one entry that matches the glob. */
  predicate HasMatch(prefix: string, dir: seq<WavFile>)
  {
    exists f :: f in dir && MatchesGlob(prefix, f.name)
  }

  /** The files of one reply: those in the output directory, or, only when the
      output directory has none, those in the working directory. An empty result
      means neither directory has any. */
  function Discover(prefix: string, outputDir: seq<WavFile>, cwd: seq<WavFile>): (r: seq<WavFile>)
    ensures forall f :: f in r ==> MatchesGlob(prefix, f.name)
    ensures HasMatch(prefix, outputDir) ==> r == Glob(prefix, outputDir)
    ensures !HasMatch(prefix, outputDir) ==> r == Glob(prefix, cwd)
    ensures r == [] <==> !HasMatch(prefix, outputDir) && !HasMatch(prefix, cwd)
  {
    var chunks := Glob(prefix, outputDir);
    if chunks != [] then
      assert chunks[0] in chunks;
      chunks
    else
      var fallback := Glob(prefix, cwd);
      assert fallback != [] ==> fallback[0] in fallback;
      fallback
  }
}

/** The discovery cases worked through on concrete listings. */
module DiscoveryExamples {
  import opened Files
  import opened Discovery

  /** Only the reply's own files are collected; `other_5.wav` is left out. */
  lemma UnrelatedFileIgnored(a: WavFile, b: WavFile, c: WavFile)
    requires a.name == "reply_100_0.wav" && b.name == "reply_100_1.wav" && c.name == "other_5.wav"
    ensures Discover("reply_100", [a, b, c], []) == [a, b]
  {
    assert MatchesGlob("reply_100", a.name);
    assert MatchesGlob("reply_100", b.name);
    assert !MatchesGlob("reply_100", c.name);
    assert [a, b, c][1..] == [b, c];
    assert [b, c][1..] == [c];
    assert [c][1..] == [];
    assert Glob("reply_100", [c]) == [];
    assert Glob("reply_100", [b, c]) == [b];
    assert Glob("reply_100", [a, b, c]) == [a, b];
  }

  /** With nothing in the output directory, a match in the working directory is
      found there. */
  lemma FallbackToWorkingDirectory(x: WavFile, y: WavFile)
    requires x.name == "notes.txt" && y.name == "reply_200_0.wav"
    ensures Discover("reply_200", [x], [y]) == [y]
  {
    assert !MatchesGlob("reply_200", x.name);
    assert MatchesGlob("reply_200", y.name);
    assert [x][1..] == [];
    assert [y][1..] == [];
  }
}
