/** `JuliaLLM.chat`: the single-string prompt handed to the language model and the
    cleaning of the text it generates. The generator itself is not modelled; its
    output is an input of `Clean`. */
module Reply {
  import opened Text
  import opened Optional

  /** The persona preamble. The second and third literal pieces are joined with no
      space between them, as in the source. */
  const SystemPrompt: string :=
    "You are Julia, User's sarcastic but caring offline assistant. " +
    "Keep replies under 60 words, inject dry humor, disagree politely." +
    "Give always short replies, never give long replies"

  /** Everything in the prompt before the user's text. */
  const PromptHead: string := SystemPrompt + "\n\n" + "User: "

  /** Everything in the prompt after the user's text. */
  const PromptTail: string := "\n" + "Assistant:"

  /** The prompt for one turn: the preamble, a blank line, `User: <input>`, a
      newline and the `Assistant:` cue. */
  function Prompt(user: string): (p: string)
    ensures |p| == |PromptHead| + |user| + |PromptTail|
    ensures p[..|PromptHead|] == PromptHead
    ensures p[|PromptHead|..|PromptHead| + |user|] == user
    ensures p[|PromptHead| + |user|..] == PromptTail
  {
    PromptHead + user + PromptTail
  }

  /** Reads the user's text back out of a prompt, if the prompt has the shape
      `Prompt` produces. */
  function UserOf(p: string): Option<string>
  {
    if |p| >= |PromptHead| + |PromptTail| &&
       p[..|PromptHead|] == PromptHead && p[|p| - |PromptTail|..] == PromptTail
    then Some(p[|PromptHead|..|p| - |PromptTail|])
    else None
  }

  /** The user's text can always be recovered from the prompt built around it. */
  lemma PromptRoundTrip(user: string)
    ensures UserOf(Prompt(user)) == Some(user)
  {
    var p := Prompt(user);
    assert p == PromptHead + user + PromptTail;
    assert p[..|PromptHead|] == PromptHead;
    assert p[|p| - |PromptTail|..] == PromptTail;
    assert p[|PromptHead|..|p| - |PromptTail|] == user;
  }

  /** Different inputs give different prompts. */
  lemma PromptInjective(a: string, b: string)
    ensures Prompt(a) == Prompt(b) ==> a == b
  {
    PromptRoundTrip(a);
    PromptRoundTrip(b);
  }

  // ---------------------------------------------------------------------------
  // One pass of the pattern `<\|[^>]+\|>`, replacing every match by nothing.

  /** A whole match of the pattern: `<|`, at least one character that is not `>`,
      then `|>`. */
  predicate IsToken(t: string)
  {
    |t| >= 5 && t[0] == '<' && t[1] == '|' && t[|t| - 2] == '|' && t[|t| - 1] == '>' &&
    forall k :: 2 <= k < |t| - 1 ==> t[k] != '>'
  }

  /** Every `<|`, non-empty run without `>`, `|>` is a token. */
  lemma TokenShape(m: string)
    requires m != [] && '>' !in m
    ensures IsToken("<|" + m + "|>")
  {
    var t := "<|" + m + "|>";
    forall k | 2 <= k < |t| - 1 ensures t[k] != '>' {
      if k < |t| - 2 {
        assert t[k] == m[k - 2];
      }
    }
  }

  /** The index of the first `>` in `s` at or after `i`, or `|s|` if there is none. */
  function CloseAt(s: string, i: nat): (j: nat)
    requires i <= |s|
    ensures i <= j <= |s|
    ensures forall k :: i <= k < j ==> s[k] != '>'
    ensures j < |s| ==> s[j] == '>'
    decreases |s| - i
  {
    if i == |s| || s[i] == '>' then i else CloseAt(s, i + 1)
  }

  /** The length of the match that starts at the front of `s`, if any: the
      greedy `[^>]+` runs up to the first `>` after `<|`, and the match succeeds
      only if the character before that `>` is `|` and is not the `|` of the
      opening `<|`. */
  function MatchLen(s: string): (m: Option<nat>)
    ensures m.Some? ==> 5 <= m.value <= |s|
  {
    if |s| >= 2 && s[0] == '<' && s[1] == '|' then
      var j := CloseAt(s, 2);
      if j < |s| && j >= 4 && s[j - 1] == '|' then Some(j + 1) else None
    else None
  }

  /** A match is found at the front of `s` exactly when some prefix of `s` is a
      token, and then it is that prefix: no two tokens start at the same place. */
  lemma MatchLenSpec(s: string, n: nat)
    requires n <= |s|
    ensures IsToken(s[..n]) <==> MatchLen(s) == Some(n)
  {
    if IsToken(s[..n]) {
      var j := CloseAt(s, 2);
      assert s[n - 1] == '>';
      assert forall k :: 2 <= k < n - 1 ==> s[k] == s[..n][k];
      assert j == n - 1;
      assert s[j - 1] == s[..n][n - 2];
    }
    if MatchLen(s) == Some(n) {
      var t := s[..n];
      assert forall k :: 2 <= k < n - 1 ==> t[k] == s[k];
    }
  }

  /** One step of the pass: a character copied to the output, or a match deleted. */
  datatype Piece = Kept(c: char) | Dropped(token: string)

  /** The input text a sequence of pieces covers. */
  function Covered(p: seq<Piece>): string
  {
    if p == [] then []
    else (match p[0] case Kept(c) => [c] case Dropped(t) => t) + Covered(p[1..])
  }

  /** The text the pass emits for a sequence of pieces: the kept characters, in order. */
  function KeptText(p: seq<Piece>): string
  {
    if p == [] then [] else (if p[0].Kept? then [p[0].c] else []) + KeptText(p[1..])
  }

  /** Putting one piece in front: it covers its own text ahead of the rest, and
      every deleted piece is a token when the new one and all of the rest are. */
  lemma Prepend(x: Piece, rest: seq<Piece>)
    ensures Covered([x] + rest) == (match x case Kept(c) => [c] case Dropped(t) => t) + Covered(rest)
    ensures (x.Dropped? ==> IsToken(x.token)) &&
            (forall i :: 0 <= i < |rest| && rest[i].Dropped? ==> IsToken(rest[i].token)) ==>
            forall i :: 0 <= i < |[x] + rest| && ([x] + rest)[i].Dropped? ==> IsToken(([x] + rest)[i].token)
  {
    assert ([x] + rest)[1..] == rest;
    assert forall i :: 1 <= i < |[x] + rest| ==> ([x] + rest)[i] == rest[i - 1];
  }

  /** The left-to-right scan: at each position the match starting there is deleted
      if there is one, otherwise one character is copied. The pieces tile the
      input and every deleted piece is a token. */
  function Scan(s: string): (p: seq<Piece>)
    ensures Covered(p) == s
    ensures forall i :: 0 <= i < |p| && p[i].Dropped? ==> IsToken(p[i].token)
    decreases |s|
  {
    if s == [] then []
    else match MatchLen(s)
      case Some(n) =>
        MatchLenSpec(s, n);
        var rest := Scan(s[n..]);
        TileDrop(s, n, rest);
        [Dropped(s[..n])] + rest
      case None =>
        var rest := Scan(s[1..]);
        TileKeep(s, rest);
        [Kept(s[0])] + rest
  }

  /** Deleting a token at the front of `s` in front of a tiling of the rest tiles `s`. */
  lemma TileDrop(s: string, n: nat, rest: seq<Piece>)
    requires n <= |s| && IsToken(s[..n])
    requires Covered(rest) == s[n..]
    requires forall i :: 0 <= i < |rest| && rest[i].Dropped? ==> IsToken(rest[i].token)
    ensures Covered([Dropped(s[..n])] + rest) == s
    ensures forall i :: 0 <= i < |[Dropped(s[..n])] + rest| && ([Dropped(s[..n])] + rest)[i].Dropped? ==>
              IsToken(([Dropped(s[..n])] + rest)[i].token)
  {
    assert s == s[..n] + s[n..];
    Prepend(Dropped(s[..n]), rest);
  }

  /** Keeping the first character of `s` in front of a tiling of the rest tiles `s`. */
  lemma TileKeep(s: string, rest: seq<Piece>)
    requires s != []
    requires Covered(rest) == s[1..]
    requires forall i :: 0 <= i < |rest| && rest[i].Dropped? ==> IsToken(rest[i].token)
    ensures Covered([Kept(s[0])] + rest) == s
    ensures forall i :: 0 <= i < |[Kept(s[0])] + rest| && ([Kept(s[0])] + rest)[i].Dropped? ==>
              IsToken(([Kept(s[0])] + rest)[i].token)
  {
    assert s == [s[0]] + s[1..];
    Prepend(Kept(s[0]), rest);
  }

  /** The regular-expression semantics of one substitution pass, stated without
      reference to how the end of a match is found: a piece is deleted where a
      token starts, a character is kept only where no token starts, and the
      pieces follow one another through the whole input. */
  ghost predicate IsLeftmostParse(s: string, p: seq<Piece>)
    decreases |p|
  {
    if p == [] then s == []
    else match p[0]
      case Dropped(t) =>
        IsToken(t) && |t| <= |s| && s[..|t|] == t && IsLeftmostParse(s[|t|..], p[1..])
      case Kept(c) =>
        s != [] && s[0] == c && (forall n :: 0 <= n <= |s| ==> !IsToken(s[..n])) &&
        IsLeftmostParse(s[1..], p[1..])
  }

  /** The scan is the one and only leftmost parse of its input. */
  lemma {:induction false} ScanIsLeftmostParse(s: string, p: seq<Piece>)
    ensures IsLeftmostParse(s, p) <==> p == Scan(s)
    decreases |s|
  {
    if s == [] {
    } else {
      match MatchLen(s)
      case Some(n) =>
        MatchLenSpec(s, n);
        if p != [] {
          match p[0]
          case Dropped(t) =>
            if IsToken(t) && |t| <= |s| && s[..|t|] == t {
              MatchLenSpec(s, |t|);
              ScanIsLeftmostParse(s[|t|..], p[1..]);
            }
          case Kept(c) =>
        }
      case None =>
        if p != [] {
          match p[0]
          case Dropped(t) =>
            if IsToken(t) && |t| <= |s| && s[..|t|] == t {
              MatchLenSpec(s, |t|);
            }
          case Kept(c) =>
            forall n | 0 <= n <= |s| ensures !IsToken(s[..n]) {
              MatchLenSpec(s, n);
            }
            ScanIsLeftmostParse(s[1..], p[1..]);
        }
    }
  }

  /** The emitted text is never longer than what it was cut from, and it is all
      of it exactly when nothing was deleted. */
  lemma {:induction false} KeptTextLength(p: seq<Piece>)
    ensures |KeptText(p)| <= |Covered(p)|
    ensures (forall i :: 0 <= i < |p| ==> p[i].Kept?) ==> KeptText(p) == Covered(p)
  {
    if p != [] {
      KeptTextLength(p[1..]);
      match p[0]
      case Kept(c) =>
      case Dropped(t) =>
    }
  }

  /** `re.sub(r"<\|[^>]+\|>", "", s)`: the text that survives one pass. */
  function StripTokens(s: string): (r: string)
    ensures |r| <= |s|
  {
    KeptTextLength(Scan(s));
    KeptText(Scan(s))
  }

  /** True when `<|` occurs nowhere in `s`. */
  predicate NoOpener(s: string)
  {
    forall i :: 0 <= i < |s| - 1 ==> !(s[i] == '<' && s[i + 1] == '|')
  }

  /** Unfolds one step of the scan where no match starts. */
  lemma ScanKeeps(s: string)
    requires s != [] && MatchLen(s) == None
    ensures KeptText(Scan(s)) == [s[0]] + KeptText(Scan(s[1..]))
  {
    var rest := Scan(s[1..]);
    assert Scan(s) == [Kept(s[0])] + rest;
    assert ([Kept(s[0])] + rest)[1..] == rest;
  }

  /** Unfolds one step of the scan where a match of length `n` starts. */
  lemma ScanDrops(s: string, n: nat)
    requires n <= |s| && MatchLen(s) == Some(n)
    ensures KeptText(Scan(s)) == KeptText(Scan(s[n..]))
  {
    var rest := Scan(s[n..]);
    assert Scan(s) == [Dropped(s[..n])] + rest;
    assert ([Dropped(s[..n])] + rest)[1..] == rest;
  }

  /** Without a `<|` in it, text passes through the substitution unchanged. */
  lemma {:induction false} StripTokensNoOpener(s: string)
    requires NoOpener(s)
    ensures StripTokens(s) == s
    decreases |s|
  {
    if s != [] {
      assert MatchLen(s) == None;
      assert NoOpener(s[1..]) by {
        forall i | 0 <= i < |s[1..]| - 1 ensures !(s[1..][i] == '<' && s[1..][i + 1] == '|') {
          assert s[1..][i] == s[i + 1] && s[1..][i + 1] == s[i + 2];
        }
      }
      StripTokensNoOpener(s[1..]);
      ScanKeeps(s);
    }
  }

  /** A first character other than `<` is copied, and the pass goes on after it. */
  lemma KeepsFirst(s: string)
    requires s != [] && s[0] != '<'
    ensures StripTokens(s) == [s[0]] + StripTokens(s[1..])
  {
    assert MatchLen(s) == None;
    ScanKeeps(s);
  }

  /** Text in which no `<` appears passes through unchanged in front of whatever
      the pass makes of the rest. */
  lemma {:induction false} StripTokensPlainPrefix(a: string, b: string)
    requires '<' !in a
    ensures StripTokens(a + b) == a + StripTokens(b)
    decreases |a|
  {
    if a == [] {
      assert a + b == b;
    } else {
      var s := a + b;
      assert s[0] == a[0] && a == [a[0]] + a[1..] && s[1..] == a[1..] + b;
      KeepsFirst(s);
      StripTokensPlainPrefix(a[1..], b);
    }
  }

  /** A token at the front is deleted and the pass carries on after it. */
  lemma StripsLeadingToken(m: string, rest: string)
    requires m != [] && '>' !in m
    ensures StripTokens("<|" + m + "|>" + rest) == StripTokens(rest)
  {
    var t := "<|" + m + "|>";
    var s := t + rest;
    TokenShape(m);
    assert s[..|t|] == t;
    MatchLenSpec(s, |t|);
    ScanDrops(s, |t|);
    assert s[|t|..] == rest;
  }

  /** A `<` that does not open a token is copied. */
  lemma KeepsLoneAngle(x: string)
    requires x == [] || x[0] != '|'
    ensures StripTokens("<" + x) == "<" + StripTokens(x)
  {
    var s := "<" + x;
    assert MatchLen(s) == None;
    ScanKeeps(s);
    assert s[1..] == x;
  }

  /** The text spoken back to the user: the generated reply with one pass of token
      deletion and then surrounding whitespace removed. It is never longer than
      the raw reply and has no whitespace at either end. */
  function Clean(raw: string): (r: string)
    ensures |r| <= |raw|
    ensures r == [] || (!IsSpace(r[0]) && !IsSpace(r[|r| - 1]))
  {
    Strip(StripTokens(raw))
  }

  /** A reply without `<|` in it is only stripped of surrounding whitespace. */
  lemma CleanNoOpener(raw: string)
    requires NoOpener(raw)
    ensures Clean(raw) == Strip(raw)
  {
    StripTokensNoOpener(raw);
  }

  /** Plain text followed by one token keeps the text and loses the token. */
  lemma StripsTrailingToken(said: string, m: string)
    requires '<' !in said
    requires m != [] && '>' !in m
    ensures StripTokens(said + ("<|" + m + "|>")) == said
  {
    var t := "<|" + m + "|>";
    StripTokensPlainPrefix(said, t);
    assert t + [] == t;
    StripsLeadingToken(m, []);
    assert Scan([]) == [];
    assert said + [] == said;
  }

  /** A reply that is plain text, already without surrounding whitespace, and
      then one token, comes out as the plain text. */
  lemma CleansTrailingToken(said: string, m: string)
    requires '<' !in said
    requires said == [] || (!IsSpace(said[0]) && !IsSpace(said[|said| - 1]))
    requires m != [] && '>' !in m
    ensures Clean(said + ("<|" + m + "|>")) == said
  {
    StripsTrailingToken(said, m);
    StripIdentity(said);
  }

  /** A `<` just before a token survives and is joined to the text after the token. */
  lemma StripsTokenAfterAngle(m: string, rest: string)
    requires m != [] && '>' !in m && NoOpener(rest)
    ensures StripTokens("<" + ("<|" + m + "|>" + rest)) == "<" + rest
  {
    KeepsLoneAngle("<|" + m + "|>" + rest);
    StripsLeadingToken(m, rest);
    StripTokensNoOpener(rest);
  }

  /** The pass is not a fixpoint: in `<<|m|>|n|>` deleting `<|m|>` brings the
      leading `<` and `|n|>` together into the new token `<|n|>` (with `m` = `a`
      and `n` = `b`, `<<|a|>|b|>` becomes `<|b|>`), and a second pass deletes
      that token too. */
  lemma StripTokensNotIdempotent(m: string, n: string)
    requires m != [] && '>' !in m
    requires n != [] && '>' !in n && '<' !in n
    ensures StripTokens("<" + ("<|" + m + "|>" + ("|" + n + "|>"))) == "<|" + n + "|>"
    ensures StripTokens("<|" + n + "|>") == []
  {
    NoOpenerInCloser(n);
    StripsTokenAfterAngle(m, "|" + n + "|>");
    AngleCloser(n);
    StripsLoneToken(n);
  }

  /** A `<` in front of the closing half of a marker makes the whole marker. */
  lemma AngleCloser(n: string)
    ensures "<" + ("|" + n + "|>") == "<|" + n + "|>"
  {
  }

  /** The closing half of a marker around `n`, with no `<` in `n`, holds no opener. */
  lemma NoOpenerInCloser(n: string)
    requires '<' !in n
    ensures NoOpener("|" + n + "|>")
  {
    var rest := "|" + n + "|>";
    forall i | 0 <= i < |rest| - 1 ensures rest[i] != '<' {
      if 1 <= i < |rest| - 2 {
        assert rest[i] == n[i - 1];
      }
    }
  }

  /** A marker on its own is deleted entirely. */
  lemma StripsLoneToken(n: string)
    requires n != [] && '>' !in n
    ensures StripTokens("<|" + n + "|>") == []
  {
    var t := "<|" + n + "|>";
    StripsLeadingToken(n, []);
    assert t + [] == t;
    assert Scan([]) == [];
  }
}

/** Worked examples of the reply cleaning on concrete replies. */
module ReplyExamples {
  import opened Text
  import opened Reply

  /** A reply that ends with the end-of-turn marker loses the marker. */
  lemma CleanEndOfTurn()
    ensures Clean("Hi there!<|eot_id|>") == "Hi there!"
  {
    var said, m := "Hi there!", "eot_id";
    assert said + ("<|" + m + "|>") == "Hi there!<|eot_id|>";
    CleansTrailingToken(said, m);
  }
}
