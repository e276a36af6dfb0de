/** The command line splitter `ConvCmdLine1`: one pass copies the words into a buffer,
    each with a NUL behind it, a second pass finds where they start. */
module CmdLine {
  import opened Hierarchy

  type Byte = b: int | 0 <= b < 256

  const NUL: Byte := 0
  const BLANK: Byte := 32

  /** A line without its NUL: no byte is NUL. */
  predicate IsLine(s: seq<Byte>) {
    forall i :: 0 <= i < |s| ==> s[i] != NUL
  }

  /** The end of the bytes above blank from `p` on. */
  function WordEnd(s: seq<Byte>, p: nat): (e: nat)
    requires p <= |s|
    ensures p <= e <= |s| && (forall i :: p <= i < e ==> s[i] > BLANK) && (e < |s| ==> s[e] <= BLANK)
    decreases |s| - p
  {
    if p == |s| || s[p] <= BLANK then p else WordEnd(s, p + 1)
  }

  /** The end of the blanks from `p` on. */
  function BlankEnd(s: seq<Byte>, p: nat): (e: nat)
    requires p <= |s|
    ensures p <= e <= |s| && (forall i :: p <= i < e ==> s[i] <= BLANK) && (e < |s| ==> s[e] > BLANK)
    decreases |s| - p
  {
    if p == |s| || s[p] > BLANK then p else BlankEnd(s, p + 1)
  }

  /** Where the next word starts. */
  function NextStart(s: seq<Byte>, p: nat): (b: nat)
    requires p <= |s|
    ensures WordEnd(s, p) <= b <= |s| && (b < |s| ==> p < b)
  {
    BlankEnd(s, WordEnd(s, p))
  }

  function WordsFrom(s: seq<Byte>, p: nat): (words: seq<seq<Byte>>)
    requires p <= |s|
    ensures words != []
    decreases |s| - p
  {
    [s[p..WordEnd(s, p)]] + if NextStart(s, p) == |s| then [] else WordsFrom(s, NextStart(s, p))
  }

  /** The words of a line: the maximal runs of bytes above blank, and before them an
      empty word if the line starts with a blank or is empty. */
  function Words(s: seq<Byte>): seq<seq<Byte>> {
    WordsFrom(s, 0)
  }

  predicate IsWord(word: seq<Byte>) {
    forall j :: 0 <= j < |word| ==> word[j] > BLANK
  }

  /** Words that a line can have: of bytes above blank, and none but the first empty. */
  predicate AreWords(words: seq<seq<Byte>>) {
    && words != []
    && (forall i :: 0 <= i < |words| ==> IsWord(words[i]))
    && (forall i :: 1 <= i < |words| ==> words[i] != [])
  }

  /** The words with single blanks between them. */
  function Join(words: seq<seq<Byte>>): seq<Byte> {
    if words == [] then []
    else words[0] + if |words| == 1 then [] else [BLANK] + Join(words[1..])
  }

  lemma {:induction false} MoreWords(first: seq<Byte>, words: seq<seq<Byte>>)
    requires IsWord(first) && AreWords(words) && words[0] != []
    ensures AreWords([first] + words)
  {
  }

  lemma {:induction false} WordsAreWords(s: seq<Byte>, p: nat)
    requires p <= |s|
    ensures AreWords(WordsFrom(s, p)) && (p < |s| && s[p] > BLANK ==> WordsFrom(s, p)[0] != [])
    decreases |s| - p
  {
    var (word, b) := (s[p..WordEnd(s, p)], NextStart(s, p));
    assert IsWord(word);
    if b < |s| {
      WordsAreWords(s, b);
      MoreWords(word, WordsFrom(s, b));
    }
  }

  lemma {:induction false} WordEndIs(s: seq<Byte>, p: nat, e: nat)
    requires p <= e <= |s| && (forall i :: p <= i < e ==> s[i] > BLANK) && (e < |s| ==> s[e] <= BLANK)
    ensures WordEnd(s, p) == e
  {
  }

  lemma {:induction false} BlankEndIs(s: seq<Byte>, p: nat)
    requires p + 1 < |s| && s[p] == BLANK && s[p + 1] > BLANK
    ensures BlankEnd(s, p) == p + 1
  {
  }

  /** From `p` on, the line is these words with single blanks between them. */
  predicate Joined(s: seq<Byte>, p: nat, words: seq<seq<Byte>>)
    requires words != []
    decreases |words|
  {
    var e := p + |words[0]|;
    && e <= |s| && s[p..e] == words[0]
    && if |words| == 1 then e == |s| else e < |s| && s[e] == BLANK && Joined(s, e + 1, words[1..])
  }

  lemma {:induction false} JoinIsJoined(s: seq<Byte>, p: nat, words: seq<seq<Byte>>)
    requires words != [] && p <= |s| && s[p..] == Join(words)
    ensures Joined(s, p, words)
    decreases |words|
  {
    if |words| > 1 {
      Parts(s, p, words[0], Join(words[1..]));
      JoinIsJoined(s, p + |words[0]| + 1, words[1..]);
    }
  }

  lemma {:induction false} Parts(s: seq<Byte>, p: nat, word: seq<Byte>, rest: seq<Byte>)
    requires p <= |s| && s[p..] == word + ([BLANK] + rest)
    ensures var e := p + |word|; e < |s| && s[p..e] == word && s[e] == BLANK && s[e + 1..] == rest
  {
    var (t, e) := (s[p..], p + |word|);
    assert s[p..e] == t[..|word|] && s[e] == t[|word|] && s[e + 1..] == t[|word| + 1..];
  }

  lemma {:induction false} RestAreWords(words: seq<seq<Byte>>)
    requires AreWords(words)
    ensures IsWord(words[0]) && (|words| > 1 ==> AreWords(words[1..]) && words[1..][0] != [])
  {
  }

  /** The first word is found, and where the next one starts. */
  lemma {:induction false} FindsWord(s: seq<Byte>, p: nat, words: seq<seq<Byte>>)
    requires AreWords(words) && Joined(s, p, words)
    ensures var e := p + |words[0]|; p <= |s| && WordEnd(s, p) == e && NextStart(s, p) == if |words| == 1 then |s| else e + 1
  {
    var e := p + |words[0]|;
    RestAreWords(words);
    assert forall i :: p <= i < e ==> s[i] == words[0][i - p];
    WordEndIs(s, p, e);
    if |words| > 1 {
      var next := words[1..][0];
      assert IsWord(next) && s[e + 1..e + 1 + |next|] == next && s[e + 1] == next[0];
      BlankEndIs(s, e);
    }
  }

  /** Splitting is the inverse of joining, on all lists of words. */
  lemma {:induction false} WordsOfJoined(s: seq<Byte>, p: nat, words: seq<seq<Byte>>)
    requires AreWords(words) && Joined(s, p, words)
    ensures p <= |s| && WordsFrom(s, p) == words
    decreases |words|
  {
    FindsWord(s, p, words);
    if |words| > 1 {
      RestAreWords(words);
      WordsOfJoined(s, p + |words[0]| + 1, words[1..]);
    }
    Glue(s, p, words);
  }

  /** The first word, and the words of the rest. */
  lemma {:induction false} Glue(s: seq<Byte>, p: nat, words: seq<seq<Byte>>)
    requires p <= |s| && words != [] && s[p..WordEnd(s, p)] == words[0]
    requires if |words| == 1 then NextStart(s, p) == |s|
             else NextStart(s, p) < |s| && WordsFrom(s, NextStart(s, p)) == words[1..]
    ensures WordsFrom(s, p) == words
  {
    assert words == [words[0]] + words[1..];
  }

  /** Splitting a line made of words gives back the words. */
  lemma {:induction false} WordsOfJoin(words: seq<seq<Byte>>)
    requires AreWords(words)
    ensures Words(Join(words)) == words
  {
    assert Join(words)[0..] == Join(words);
    JoinIsJoined(Join(words), 0, words);
    WordsOfJoined(Join(words), 0, words);
  }

  /** Splitting the words joined by single blanks gives the same words. */
  lemma {:induction false} Resplit(s: seq<Byte>)
    ensures Words(Join(Words(s))) == Words(s)
  {
    WordsAreWords(s, 0);
    WordsOfJoin(Words(s));
  }

  /** The words one after the other, each with its NUL. */
  function Packed(words: seq<seq<Byte>>): seq<Byte> {
    if words == [] then [] else Packed(words[..|words| - 1]) + words[|words| - 1] + [NUL]
  }

  lemma {:induction false} PackedMore(words: seq<seq<Byte>>, word: seq<Byte>)
    ensures Packed(words + [word]) == Packed(words) + word + [NUL]
  {
    assert (words + [word])[..|words|] == words;
  }

  /** The line that a NUL ends. */
  predicate HoldsLine(line: array<Byte>, s: seq<Byte>)
    reads line
  {
    line.Length == |s| + 1 && line[|s|] == NUL && line[..|s|] == s && IsLine(s)
  }

  /** The copying loop: a word, and the byte that ends it. */
  method CopyBytes(line: array<Byte>, buffer: array<Byte>, p: nat, q: nat, ghost s: seq<Byte>) returns (p': nat, q': nat)
    requires line != buffer && HoldsLine(line, s) && line.Length == buffer.Length && q <= p <= |s|
    modifies buffer
    ensures p' == WordEnd(s, p) + 1 && q' == q + p' - p
    ensures buffer[..q] == old(buffer[..q]) && buffer[q..q' - 1] == s[p..p' - 1]
  {
    p', q' := p, q;
    var c := line[p];
    while true
      invariant p <= p' <= WordEnd(s, p) && q' - q == p' - p && c == line[p']
      invariant forall j :: 0 <= j < q ==> buffer[j] == old(buffer[j])
      invariant forall j :: q <= j < q' ==> buffer[j] == s[j - q + p]
      decreases |s| - p'
    {
      assert c == if p' < |s| then s[p'] else NUL;
      buffer[q'] := c;
      p', q' := p' + 1, q' + 1;
      if c <= BLANK {
        break;
      }
      c := line[p'];
    }
  }

  /** One word, and its NUL in place of the byte that ends it. */
  method CopyWord(line: array<Byte>, buffer: array<Byte>, p: nat, q: nat, ghost s: seq<Byte>) returns (p': nat, q': nat)
    requires line != buffer && HoldsLine(line, s) && line.Length == buffer.Length && q <= p <= |s|
    modifies buffer
    ensures p' == WordEnd(s, p) && q' == q + p' - p + 1
    ensures buffer[..q'] == old(buffer[..q]) + s[p..p'] + [NUL]
  {
    p', q' := CopyBytes(line, buffer, p, q, s);
    p' := p' - 1;
    ghost var (start, word) := (buffer[..q], buffer[q..q' - 1]);
    buffer[q' - 1] := NUL;
    assert buffer[..q'] == start + word + [NUL];
  }

  /** The loop over the blanks behind a word. */
  method SkipBlanks(line: array<Byte>, p: nat, ghost s: seq<Byte>) returns (p': nat)
    requires HoldsLine(line, s) && p <= |s|
    ensures p' == BlankEnd(s, p)
  {
    p' := p;
    while NUL < line[p'] <= BLANK
      invariant p <= p' <= BlankEnd(s, p)
      decreases |s| - p'
    {
      assert line[p'] == s[p'];
      p' := p' + 1;
    }
    assert p' < |s| ==> line[p'] == s[p'];
  }

  /** The words so far, and the line from `p` on, make up the words of the line. */
  predicate SoFar(s: seq<Byte>, done: seq<seq<Byte>>, p: nat, more: bool) {
    p <= |s| && Words(s) == if more then done + WordsFrom(s, p) else done
  }

  lemma {:induction false} NothingYet(s: seq<Byte>)
    ensures SoFar(s, [], 0, true)
  {
    assert [] + Words(s) == Words(s);
  }

  lemma {:induction false} OneMore(s: seq<Byte>, done: seq<seq<Byte>>, p: nat)
    requires SoFar(s, done, p, true)
    ensures SoFar(s, done + [s[p..WordEnd(s, p)]], NextStart(s, p), NextStart(s, p) < |s|)
  {
    Associate(done, [s[p..WordEnd(s, p)]], if NextStart(s, p) == |s| then [] else WordsFrom(s, NextStart(s, p)));
  }

  /** One turn of the first loop. */
  method OneWord(line: array<Byte>, buffer: array<Byte>, p: nat, q: nat, ghost s: seq<Byte>, ghost done: seq<seq<Byte>>)
    returns (p': nat, q': nat, more: bool, ghost done': seq<seq<Byte>>)
    requires line != buffer && HoldsLine(line, s) && line.Length == buffer.Length && q <= p <= |s|
    requires SoFar(s, done, p, true) && buffer[..q] == Packed(done)
    modifies buffer
    ensures p <= p' <= |s| && q' <= buffer.Length && (more ==> p < p' && q' <= p')
    ensures SoFar(s, done', p', more) && buffer[..q'] == Packed(done') && |done'| == |done| + 1
  {
    done' := done + [s[p..WordEnd(s, p)]];
    OneMore(s, done, p);
    PackedMore(done, s[p..WordEnd(s, p)]);
    p', q' := CopyWord(line, buffer, p, q, s);
    p' := SkipBlanks(line, p', s);
    more := line[p'] != NUL;
    assert p' < |s| ==> line[p'] == s[p'];
  }

  /** The first pass: copies the words.  The buffer is never overrun. */
  method SplitWords(line: array<Byte>, ghost s: seq<Byte>) returns (buffer: array<Byte>, argc: nat)
    requires HoldsLine(line, s)
    ensures fresh(buffer) && buffer.Length == line.Length && argc == |Words(s)|
    ensures Packed(Words(s)) <= buffer[..]
  {
    ghost var done: seq<seq<Byte>> := [];
    buffer := new Byte[line.Length];
    argc := 0;
    var p: nat, q: nat, more := 0, 0, true;
    NothingYet(s);
    while more
      invariant p <= |s| && q <= buffer.Length && HoldsLine(line, s) && (more ==> q <= p)
      invariant argc == |done| && buffer[..q] == Packed(done) && SoFar(s, done, p, more)
      decreases |s| - p, more
    {
      p, q, more, done := OneWord(line, buffer, p, q, s, done);
      argc := argc + 1;
    }
    assert buffer[..q] <= buffer[..];
  }

  /** Where word `i` starts. */
  function Start(words: seq<seq<Byte>>, i: nat): nat
    requires i <= |words|
  {
    |Packed(words[..i])|
  }

  /** The bytes from `p` up to the first NUL are `word`. */
  predicate StringAt(buffer: seq<Byte>, p: nat, word: seq<Byte>) {
    p + |word| < |buffer| && buffer[p..p + |word|] == word && buffer[p + |word|] == NUL
  }

  lemma {:induction false} PackedAt(words: seq<seq<Byte>>, i: nat, buffer: seq<Byte>)
    requires i < |words| && Packed(words) <= buffer
    ensures StringAt(buffer, Start(words, i), words[i]) && Start(words, i + 1) == Start(words, i) + |words[i]| + 1
    decreases |words|
  {
    var front := words[..|words| - 1];
    assert words[..i + 1][..i] == words[..i];
    assert Packed(front) <= Packed(words) <= buffer;
    if i < |words| - 1 {
      PackedAt(front, i, buffer);
      assert front[..i] == words[..i] && front[..i + 1] == words[..i + 1];
    } else {
      assert words[..i] == front && words[..i + 1] == words;
      StringInside(Packed(front), words[i], buffer);
    }
  }

  lemma {:induction false} StringInside(before: seq<Byte>, word: seq<Byte>, buffer: seq<Byte>)
    requires before + word + [NUL] <= buffer
    ensures StringAt(buffer, |before|, word)
  {
    var t := before + word + [NUL];
    assert buffer[|before|..|before| + |word|] == t[|before|..|before| + |word|];
    assert buffer[|before| + |word|] == t[|before| + |word|];
  }

  /** The second pass: finds where the words start. */
  method FindWords(buffer: array<Byte>, argc: nat, ghost words: seq<seq<Byte>>) returns (argv: array<Option<nat>>)
    requires AreWords(words) && argc == |words| && Packed(words) <= buffer[..]
    ensures fresh(argv) && argv.Length == argc + 1 && argv[argc] == None
    ensures forall i :: 0 <= i < argc ==> argv[i] == Some(Start(words, i))
  {
    argv := new Option<nat>[argc + 1](_ => None);
    argv[0] := Some(0);
    var q, i := 0, 1;
    assert words[..0] == [];
    while i < argc
      invariant 1 <= i <= argc && q == Start(words, i - 1)
      invariant forall j :: 0 <= j < i ==> argv[j] == Some(Start(words, j))
    {
      PackedAt(words, i - 1, buffer[..]);
      assert IsWord(words[i - 1]);
      q := NextString(buffer, q, words[i - 1]);
      argv[i] := Some(q);
      i := i + 1;
    }
    argv[i] := None;
  }

  /** The loop to the byte behind the next NUL. */
  method NextString(buffer: array<Byte>, q: nat, ghost word: seq<Byte>) returns (q': nat)
    requires StringAt(buffer[..], q, word) && IsWord(word)
    ensures q' == q + |word| + 1
  {
    assert forall j :: q <= j < q + |word| ==> buffer[j] == buffer[..][q..q + |word|][j - q];
    q' := q;
    while buffer[q'] != NUL
      invariant q <= q' <= q + |word| && (q' < q + |word| ==> buffer[q'] == word[q' - q])
      decreases q + |word| - q'
    {
      q' := q' + 1;
    }
    q' := q' + 1;
  }

  /** `ConvCmdLine1`: `argv[i]` points at the `i`th word, and the last pointer is null. */
  method ConvCmdLine1(line: array<Byte>, ghost s: seq<Byte>)
    returns (argc: nat, argv: array<Option<nat>>, buffer: array<Byte>)
    requires HoldsLine(line, s)
    ensures argc == |Words(s)| && argv.Length == argc + 1 && argv[argc] == None
    ensures buffer.Length == |s| + 1 && fresh(buffer) && fresh(argv)
    ensures forall i :: 0 <= i < argc ==> argv[i].Some? && StringAt(buffer[..], argv[i].value, Words(s)[i])
  {
    buffer, argc := SplitWords(line, s);
    WordsAreWords(s, 0);
    argv := FindWords(buffer, argc, Words(s));
    forall i | 0 <= i < argc
      ensures StringAt(buffer[..], Start(Words(s), i), Words(s)[i])
    {
      PackedAt(Words(s), i, buffer[..]);
    }
  }
}
