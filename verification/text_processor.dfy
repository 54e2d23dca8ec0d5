/**
 * The pacing engine's pure core (utils/textProcessor.ts): the focus-letter
 * offset of a word, the tokenizer, and the per-word display delay.
 *
 * JavaScript strings become `seq<char>`; the regular-expression classes the
 * source uses become the predicates IsWhitespace (`\s`, and the set `trim`
 * removes) and IsWordChar (`\w`).
 */
module TextProcessor {
  import opened Types

  // ---------------------------------------------------------------------------
  // Character classes
  // ---------------------------------------------------------------------------

  /** A character of the JavaScript class `\s`, which is also the set that
      `String.prototype.trim` strips: ECMAScript's WhiteSpace (tab, vertical
      tab, form feed, space, no-break space, the byte-order mark and the other
      Unicode space separators) and LineTerminator (line feed, carriage return,
      line and paragraph separators) characters. */
  predicate IsWhitespace(c: char) {
    c == '\t' || c == '\n' || c == '\U{000B}' || c == '\U{000C}' || c == '\r' || c == ' '
    || c == '\U{00A0}' || c == '\U{1680}' || ('\U{2000}' <= c <= '\U{200A}')
    || c == '\U{2028}' || c == '\U{2029}' || c == '\U{202F}' || c == '\U{205F}'
    || c == '\U{3000}' || c == '\U{FEFF}'
  }

  /** A character of the JavaScript class `\w` (no `u` flag): ASCII letters,
      digits and the underscore. */
  predicate IsWordChar(c: char) {
    ('A' <= c <= 'Z') || ('a' <= c <= 'z') || ('0' <= c <= '9') || c == '_'
  }

  predicate NoWhitespace(s: string) {
    forall i :: 0 <= i < |s| ==> !IsWhitespace(s[i])
  }

  predicate AllWhitespace(s: string) {
    forall i :: 0 <= i < |s| ==> IsWhitespace(s[i])
  }

  // ---------------------------------------------------------------------------
  // Optimal recognition point
  // ---------------------------------------------------------------------------

  /** The focus-letter offset of a word, a step function of the word's own
      length (punctuation included). */
  function GetOrpIndex(word: string): (r: int)
    ensures 0 <= r <= 4
    ensures |word| > 0 ==> r < |word|
  {
    var length := |word|;
    if length <= 1 then 0
    else if length <= 5 then 1
    else if length <= 9 then 2
    else if length <= 13 then 3
    else 4
  }

  /** The documented table: 0-1 letters focus the 1st letter, 2-5 the 2nd,
      6-9 the 3rd, 10-13 the 4th, 14 or more the 5th. */
  lemma {:induction false} OrpTable(word: string)
    ensures |word| <= 1 ==> GetOrpIndex(word) == 0
    ensures 2 <= |word| <= 5 ==> GetOrpIndex(word) == 1
    ensures 6 <= |word| <= 9 ==> GetOrpIndex(word) == 2
    ensures 10 <= |word| <= 13 ==> GetOrpIndex(word) == 3
    ensures 14 <= |word| ==> GetOrpIndex(word) == 4
  {
  }

  /** The focus moves right (never left) as words get longer. */
  lemma {:induction false} OrpMonotone(shorter: string, longer: string)
    requires |shorter| <= |longer|
    ensures GetOrpIndex(shorter) <= GetOrpIndex(longer)
  {
  }

  // ---------------------------------------------------------------------------
  // trim
  // ---------------------------------------------------------------------------

  /** The number of whitespace characters at the start of s. */
  function LeadingWhitespace(s: string): (n: nat)
    ensures n <= |s|
    ensures AllWhitespace(s[..n])
    ensures n < |s| ==> !IsWhitespace(s[n])
  {
    if s == [] || !IsWhitespace(s[0]) then 0 else 1 + LeadingWhitespace(s[1..])
  }

  /** The number of whitespace characters at the end of s. */
  function TrailingWhitespace(s: string): (n: nat)
    ensures n <= |s|
    ensures AllWhitespace(s[|s| - n..])
    ensures n < |s| ==> !IsWhitespace(s[|s| - n - 1])
  {
    if s == [] || !IsWhitespace(s[|s| - 1]) then 0 else 1 + TrailingWhitespace(s[..|s| - 1])
  }

  /** `String.prototype.trim`: s without its whitespace prefix and suffix. */
  function Trim(s: string): (t: string)
    ensures var a := LeadingWhitespace(s);
      a + |t| <= |s| && t == s[a..a + |t|] && AllWhitespace(s[..a]) && AllWhitespace(s[a + |t|..])
    ensures t == [] || (!IsWhitespace(t[0]) && !IsWhitespace(t[|t| - 1]))
    ensures t == [] <==> AllWhitespace(s)
  {
    var a := LeadingWhitespace(s);
    var rest := s[a..];
    var t := rest[..|rest| - TrailingWhitespace(rest)];
    assert AllWhitespace(s) ==> a == |s|;
    t
  }

  /** Trimming a string that neither starts nor ends with whitespace keeps it. */
  lemma {:induction false} TrimKeepsTrimmed(s: string)
    requires s == [] || (!IsWhitespace(s[0]) && !IsWhitespace(s[|s| - 1]))
    ensures Trim(s) == s
  {
  }

  // ---------------------------------------------------------------------------
  // split(/\s+/)
  // ---------------------------------------------------------------------------

  /** The number of non-whitespace characters at the start of s. */
  function WordLength(s: string): (n: nat)
    ensures n <= |s|
    ensures NoWhitespace(s[..n])
    ensures n < |s| ==> IsWhitespace(s[n])
  {
    if s == [] || IsWhitespace(s[0]) then 0 else 1 + WordLength(s[1..])
  }

  /** `s.split(/\s+/)`: the pieces of s between its maximal runs of
      whitespace. A leading (trailing) run yields an empty first (last)
      piece, and the empty string yields the single piece "". */
  function SplitOnWhitespace(s: string): (parts: seq<string>)
    ensures |parts| >= 1
    ensures forall i :: 0 <= i < |parts| ==> NoWhitespace(parts[i])
    decreases |s|
  {
    var n := WordLength(s);
    if n == |s| then [s]
    else
      var m := n + LeadingWhitespace(s[n..]);
      [s[..n]] + SplitOnWhitespace(s[m..])
  }

  /** The pieces glued back together with one space between neighbours. */
  function JoinWithSpaces(parts: seq<string>): string
  {
    if |parts| == 0 then ""
    else if |parts| == 1 then parts[0]
    else parts[0] + " " + JoinWithSpaces(parts[1..])
  }

  /** Reference definition: s with every maximal run of whitespace replaced
      by a single space. */
  function CollapseWhitespace(s: string): (r: string)
    ensures |r| <= |s|
    decreases |s|
  {
    if s == [] then ""
    else if IsWhitespace(s[0]) then " " + CollapseWhitespace(s[LeadingWhitespace(s)..])
    else [s[0]] + CollapseWhitespace(s[1..])
  }

  lemma {:induction false} CollapseAfterWord(s: string, n: nat)
    requires n <= |s|
    requires NoWhitespace(s[..n])
    ensures CollapseWhitespace(s) == s[..n] + CollapseWhitespace(s[n..])
  {
    if n > 0 {
      var x := s[1..][..n - 1];
      var y := CollapseWhitespace(s[n..]);
      assert !IsWhitespace(s[..n][0]);
      assert NoWhitespace(s[1..][..n - 1]) by {
        assert s[1..][..n - 1] == s[..n][1..];
      }
      CollapseAfterWord(s[1..], n - 1);
      assert s[1..][n - 1..] == s[n..];
      assert s[..n] == [s[0]] + x;
      AppendAssoc([s[0]], x, y);
    } else {
      assert s[..0] == [] && s[0..] == s;
    }
  }

  lemma {:induction false} AppendAssoc<T>(a: seq<T>, b: seq<T>, c: seq<T>)
    ensures (a + b) + c == a + (b + c)
  {
  }

  lemma {:induction false} CollapseRun(t: string)
    requires t != [] && IsWhitespace(t[0])
    ensures CollapseWhitespace(t) == " " + CollapseWhitespace(t[LeadingWhitespace(t)..])
  {
  }

  /** One step of the split: the first word, then the split of what follows
      the whitespace run behind it. */
  lemma {:induction false} SplitStep(s: string, n: nat, m: nat)
    requires n == WordLength(s) && n < |s|
    requires m == n + LeadingWhitespace(s[n..])
    ensures SplitOnWhitespace(s) == [s[..n]] + SplitOnWhitespace(s[m..])
  {
  }

  /** The same step for the collapsed text. */
  lemma {:induction false} CollapseStep(s: string, n: nat, m: nat)
    requires n == WordLength(s) && n < |s|
    requires m == n + LeadingWhitespace(s[n..])
    ensures CollapseWhitespace(s) == s[..n] + " " + CollapseWhitespace(s[m..])
  {
    var tail := s[n..];
    var lead := LeadingWhitespace(tail);
    assert tail[lead..] == s[m..];
    CollapseAfterWord(s, n);
    CollapseRun(tail);
  }

  lemma {:induction false} JoinCons(word: string, rest: seq<string>)
    requires |rest| >= 1
    ensures JoinWithSpaces([word] + rest) == word + " " + JoinWithSpaces(rest)
  {
    assert ([word] + rest)[1..] == rest;
  }

  /** Joining the pieces of a split with single spaces collapses every
      whitespace run of the input to one space and keeps everything else,
      in order. */
  lemma {:induction false} JoinSplit(s: string)
    ensures JoinWithSpaces(SplitOnWhitespace(s)) == CollapseWhitespace(s)
    decreases |s|
  {
    var n := WordLength(s);
    if n == |s| {
      CollapseAfterWord(s, n);
      assert s[..n] == s && s[n..] == [];
    } else {
      var m := n + LeadingWhitespace(s[n..]);
      SplitStep(s, n, m);
      CollapseStep(s, n, m);
      JoinCons(s[..n], SplitOnWhitespace(s[m..]));
      JoinSplit(s[m..]);
    }
  }

  /** A string that neither starts nor ends with whitespace splits into
      non-empty pieces only. */
  lemma {:induction false} SplitTrimmedPiecesNonEmpty(s: string)
    requires s != [] && !IsWhitespace(s[0]) && !IsWhitespace(s[|s| - 1])
    ensures forall i :: 0 <= i < |SplitOnWhitespace(s)| ==> SplitOnWhitespace(s)[i] != []
    decreases |s|
  {
    var n := WordLength(s);
    assert n > 0;
    if n < |s| {
      var lead := LeadingWhitespace(s[n..]);
      var m := n + lead;
      assert m < |s| by {
        assert s[n..][|s| - n - 1] == s[|s| - 1];
      }
      assert s[m..][0] == s[n..][lead];
      SplitTrimmedPiecesNonEmpty(s[m..]);
      SplitStep(s, n, m);
      var rest := SplitOnWhitespace(s[m..]);
      forall i | 0 <= i < |SplitOnWhitespace(s)|
        ensures SplitOnWhitespace(s)[i] != []
      {
        if i > 0 {
          assert SplitOnWhitespace(s)[i] == rest[i - 1];
        }
      }
    }
  }

  /** Splitting words that were joined with single spaces gives the words
      back: the split is the inverse of the join on non-empty words without
      whitespace. */
  lemma {:induction false} SplitJoin(parts: seq<string>)
    requires |parts| >= 1
    requires forall i :: 0 <= i < |parts| ==> parts[i] != [] && NoWhitespace(parts[i])
    ensures SplitOnWhitespace(JoinWithSpaces(parts)) == parts
    decreases |parts|
  {
    var p := parts[0];
    if |parts| == 1 {
      assert WordLength(p) == |p|;
    } else {
      var rest := parts[1..];
      var joined := JoinWithSpaces(rest);
      JoinFirstChar(rest);
      var s := p + " " + joined;
      assert s == JoinWithSpaces(parts);
      WordThenSpace(p, joined);
      var n := |p|;
      SplitStep(s, n, n + 1);
      SplitJoin(rest);
    }
  }

  /** A word, one space and a string that starts with a non-whitespace
      character: the scan stops at the space, and the run is that space. */
  lemma {:induction false} WordThenSpace(p: string, joined: string)
    requires NoWhitespace(p) && joined != [] && !IsWhitespace(joined[0])
    ensures var s := p + " " + joined;
      WordLength(s) == |p| && LeadingWhitespace(s[|p|..]) == 1 && s[..|p|] == p && s[|p| + 1..] == joined
  {
    var s := p + " " + joined;
    var n := WordLength(s);
    assert s[|p|] == ' ';
    assert n == |p|;
    assert s[n..] == " " + joined;
    assert s[n..][1] == joined[0];
    assert s[..n] == p;
    assert s[n + 1..] == joined;
  }

  lemma {:induction false} JoinFirstChar(parts: seq<string>)
    requires |parts| >= 1 && parts[0] != []
    ensures |JoinWithSpaces(parts)| > 0 && JoinWithSpaces(parts)[0] == parts[0][0]
  {
    if |parts| > 1 {
      assert JoinWithSpaces(parts) == parts[0] + " " + JoinWithSpaces(parts[1..]);
    }
  }

  lemma {:induction false} JoinLastChar(parts: seq<string>)
    requires |parts| >= 1 && parts[|parts| - 1] != []
    ensures var j, last := JoinWithSpaces(parts), parts[|parts| - 1];
      |j| > 0 && j[|j| - 1] == last[|last| - 1]
    decreases |parts|
  {
    if |parts| > 1 {
      var rest := parts[1..];
      assert rest[|rest| - 1] == parts[|parts| - 1];
      JoinLastChar(rest);
      assert JoinWithSpaces(parts) == parts[0] + " " + JoinWithSpaces(rest);
    }
  }

  // ---------------------------------------------------------------------------
  // The cleaned word
  // ---------------------------------------------------------------------------

  /** sub can be obtained from s by deleting characters. */
  predicate IsSubsequence(sub: string, s: string)
    decreases |s|
  {
    if sub == [] then true
    else if s == [] then false
    else if sub[0] == s[0] then IsSubsequence(sub[1..], s[1..])
    else IsSubsequence(sub, s[1..])
  }

  /** `word.replace(/[^\w]/g, '')`: the word with every character outside
      `\w` removed. */
  function CleanWord(word: string): (clean: string)
    ensures |clean| <= |word|
    ensures forall i :: 0 <= i < |clean| ==> IsWordChar(clean[i])
  {
    if word == [] then ""
    else if IsWordChar(word[0]) then [word[0]] + CleanWord(word[1..])
    else CleanWord(word[1..])
  }

  /** Cleaning keeps every word character, as often as it occurs. */
  lemma {:induction false} CleanWordKeepsWordChars(word: string, c: char)
    requires IsWordChar(c)
    ensures multiset(CleanWord(word))[c] == multiset(word)[c]
  {
    if word != [] {
      CleanWordKeepsWordChars(word[1..], c);
      assert word == [word[0]] + word[1..];
    }
  }

  /** Cleaning only deletes characters: the order of the kept ones is that of
      the word. */
  lemma {:induction false} CleanWordIsSubsequence(word: string)
    ensures IsSubsequence(CleanWord(word), word)
  {
    if word != [] {
      CleanWordIsSubsequence(word[1..]);
      var tail := CleanWord(word[1..]);
      if IsWordChar(word[0]) {
        assert ([word[0]] + tail)[1..] == tail;
      }
    }
  }

  /** Cleaning changes a word exactly when it holds a character outside `\w`. */
  lemma {:induction false} CleanWordUnchangedIff(word: string)
    ensures CleanWord(word) == word <==> forall i :: 0 <= i < |word| ==> IsWordChar(word[i])
  {
    if word != [] && forall i :: 0 <= i < |word| ==> IsWordChar(word[i]) {
      CleanWordUnchangedIff(word[1..]);
      assert word == [word[0]] + word[1..];
    }
  }

  // ---------------------------------------------------------------------------
  // tokenizeText
  // ---------------------------------------------------------------------------

  /** One token of the tokenizer; the focus offset is computed from the raw
      word, punctuation included. */
  function ToWordData(word: string): WordData {
    WordData(word, CleanWord(word), GetOrpIndex(word))
  }

  /** `tokenizeText`: trim, split on whitespace runs, and make a token of every
      piece. Nothing filters empty pieces, so the result is never empty. */
  function TokenizeText(text: string): (tokens: seq<WordData>)
    ensures |tokens| >= 1
    ensures forall i :: 0 <= i < |tokens| ==>
      NoWhitespace(tokens[i].original)
      && tokens[i].clean == CleanWord(tokens[i].original)
      && tokens[i].orpIndex == GetOrpIndex(tokens[i].original)
  {
    var rawWords := SplitOnWhitespace(Trim(text));
    seq(|rawWords|, i requires 0 <= i < |rawWords| => ToWordData(rawWords[i]))
  }

  /** The raw words of a token sequence, in order. */
  function Originals(tokens: seq<WordData>): (words: seq<string>)
    ensures |words| == |tokens|
    ensures forall i :: 0 <= i < |tokens| ==> words[i] == tokens[i].original
  {
    seq(|tokens|, i requires 0 <= i < |tokens| => tokens[i].original)
  }

  /** Empty or all-whitespace text gives exactly one token, the empty word
      (no "no readable text" case arises). */
  lemma {:induction false} TokenizeBlank(text: string)
    requires AllWhitespace(text)
    ensures TokenizeText(text) == [WordData("", "", 0)]
  {
    assert Trim(text) == "";
    assert SplitOnWhitespace("") == [""];
  }

  /** Text with some non-whitespace character gives only non-empty tokens. */
  lemma {:induction false} TokenizeWordsNonEmpty(text: string)
    requires !AllWhitespace(text)
    ensures forall i :: 0 <= i < |TokenizeText(text)| ==> TokenizeText(text)[i].original != []
  {
    SplitTrimmedPiecesNonEmpty(Trim(text));
  }

  /** The raw words, joined with single spaces, are the trimmed text with
      every whitespace run collapsed to one space: no character is lost,
      added or reordered. */
  lemma {:induction false} TokenizeJoin(text: string)
    ensures JoinWithSpaces(Originals(TokenizeText(text))) == CollapseWhitespace(Trim(text))
  {
    var t := Trim(text);
    assert Originals(TokenizeText(text)) == SplitOnWhitespace(t);
    JoinSplit(t);
  }

  lemma {:induction false} JoinedIsTrimmed(words: seq<string>)
    requires |words| >= 1
    requires forall i :: 0 <= i < |words| ==> words[i] != [] && NoWhitespace(words[i])
    ensures Trim(JoinWithSpaces(words)) == JoinWithSpaces(words)
  {
    JoinFirstChar(words);
    JoinLastChar(words);
    TrimKeepsTrimmed(JoinWithSpaces(words));
  }

  /** Tokenizing words joined by single spaces yields exactly those words. */
  lemma {:induction false} TokenizeJoined(words: seq<string>)
    requires |words| >= 1
    requires forall i :: 0 <= i < |words| ==> words[i] != [] && NoWhitespace(words[i])
    ensures Originals(TokenizeText(JoinWithSpaces(words))) == words
  {
    var s := JoinWithSpaces(words);
    JoinedIsTrimmed(words);
    SplitJoin(words);
    assert Originals(TokenizeText(s)) == SplitOnWhitespace(Trim(s));
  }

  /** The focus offset counts punctuation: "Hello," focuses its 3rd letter,
      where its cleaned form "Hello" would focus the 2nd. */
  lemma OrpCountsPunctuation()
    ensures ToWordData("Hello,").orpIndex == 2
    ensures GetOrpIndex(CleanWord("Hello,")) == 1
  {
    CleanExamples();
  }

  // ---------------------------------------------------------------------------
  // calculateDelay
  // ---------------------------------------------------------------------------

  predicate EndsWith(word: string, c: char) {
    |word| > 0 && word[|word| - 1] == c
  }

  /** The word ends with one of the characters in `cs`. */
  predicate EndsWithAny(word: string, cs: set<char>) {
    exists c :: c in cs && EndsWith(word, c)
  }

  /** Reference definition of the pause factor, first match wins: sentence
      end, then clause end, then a word longer than eight characters. */
  function DelayMultiplier(word: string): (m: real)
    ensures 1.0 <= m <= 2.5
  {
    if EndsWithAny(word, {'.', '!', '?'}) then 2.5
    else if EndsWithAny(word, {',', ';', ':'}) then 1.8
    else if |word| > 8 then 1.2
    else 1.0
  }

  /** `calculateDelay`: the time to show a word, given the base delay per
      word. It scales the base delay by a factor that depends on the word
      only, and never shortens nor more than 2.5-fold lengthens it. */
  function CalculateDelay(word: string, baseDelay: real): (delay: real)
    ensures delay == DelayMultiplier(word) * baseDelay
    ensures 0.0 <= baseDelay ==> baseDelay <= delay <= 2.5 * baseDelay
  {
    var delay := baseDelay;
    if EndsWith(word, '.') || EndsWith(word, '!') || EndsWith(word, '?') then delay * 2.5
    else if EndsWith(word, ',') || EndsWith(word, ';') || EndsWith(word, ':') then delay * 1.8
    else if |word| > 8 then delay * 1.2
    else delay
  }

  /** Rule priority: a sentence end wins over the length rule. */
  lemma {:induction false} SentenceEndWins(word: string, baseDelay: real)
    requires EndsWith(word, '.') || EndsWith(word, '!') || EndsWith(word, '?')
    ensures CalculateDelay(word, baseDelay) == 2.5 * baseDelay
  {
  }

  /** Rule priority: a clause end wins over the length rule. */
  lemma {:induction false} ClauseEndWins(word: string, baseDelay: real)
    requires EndsWith(word, ',') || EndsWith(word, ';') || EndsWith(word, ':')
    ensures CalculateDelay(word, baseDelay) == 1.8 * baseDelay
  {
  }

  /** The length rule applies only to words with no end punctuation. */
  lemma {:induction false} LengthRuleOnlyWithoutPunctuation(word: string, baseDelay: real)
    requires |word| > 8
    requires !EndsWithAny(word, {'.', '!', '?', ',', ';', ':'})
    ensures CalculateDelay(word, baseDelay) == 1.2 * baseDelay
  {
    assert word[|word| - 1] !in {'.', '!', '?', ',', ';', ':'} by {
      if word[|word| - 1] in {'.', '!', '?', ',', ';', ':'} {
        assert EndsWith(word, word[|word| - 1]);
      }
    }
  }

  /** A nine-letter word ending in a comma waits 1.8 base delays, not 1.2. */
  lemma {:induction false} LongClauseEndExample(baseDelay: real)
    ensures CalculateDelay("abcdefghi,", baseDelay) == 1.8 * baseDelay
  {
    assert EndsWith("abcdefghi,", ',');
  }

  /** A 17-character word ending in a full stop waits 2.5 base delays. */
  lemma {:induction false} LongSentenceEndExample(baseDelay: real)
    ensures CalculateDelay("incomprehensible.", baseDelay) == 2.5 * baseDelay
  {
    assert EndsWith("incomprehensible.", '.');
  }

  /** The text "Hello, world! Go." end to end: raw words kept with their
      punctuation, and focus offsets 2, 2 and 1 from the raw lengths 6, 6
      and 3. */
  lemma TokenizeExample()
    ensures TokenizeText("Hello, world! Go.") ==
      [WordData("Hello,", "Hello", 2), WordData("world!", "world", 2), WordData("Go.", "Go", 1)]
  {
    var words := ["Hello,", "world!", "Go."];
    ExampleText();
    assert forall i :: 0 <= i < |words| ==> words[i] != [] && NoWhitespace(words[i]);
    TokenizeJoined(words);
    var tokens := TokenizeText(JoinWithSpaces(words));
    assert Originals(tokens) == words;
    assert tokens[0].original == Originals(tokens)[0];
    assert tokens[1].original == Originals(tokens)[1];
    assert tokens[2].original == Originals(tokens)[2];
    ExampleTokens(tokens);
  }

  /** The pause factors of the example's words: 1.8 after the comma, 2.5
      after the exclamation mark and the full stop. */
  lemma ExampleDelays()
    ensures DelayMultiplier("Hello,") == 1.8
    ensures DelayMultiplier("world!") == 2.5 && DelayMultiplier("Go.") == 2.5
  {
  }

  /** The text of the three-word example is "Hello, world! Go.". */
  lemma ExampleText()
    ensures JoinWithSpaces(["Hello,", "world!", "Go."]) == "Hello, world! Go."
  {
  }

  lemma {:induction false} ExampleTokens(tokens: seq<WordData>)
    requires |tokens| == 3
    requires tokens[0].original == "Hello," && tokens[1].original == "world!" && tokens[2].original == "Go."
    requires forall i :: 0 <= i < |tokens| ==>
      tokens[i].clean == CleanWord(tokens[i].original) && tokens[i].orpIndex == GetOrpIndex(tokens[i].original)
    ensures tokens == [WordData("Hello,", "Hello", 2), WordData("world!", "world", 2), WordData("Go.", "Go", 1)]
  {
    CleanExamples();
    assert tokens[0] == WordData("Hello,", "Hello", 2);
    assert tokens[1] == WordData("world!", "world", 2);
    assert tokens[2] == WordData("Go.", "Go", 1);
  }

  lemma CleanExamples()
    ensures CleanWord("Hello,") == "Hello"
    ensures CleanWord("world!") == "world"
    ensures CleanWord("Go.") == "Go"
  {
    CleanHello();
    CleanWorld();
  }

  lemma CleanHello()
    ensures CleanWord("Hello,") == "Hello"
  {
  }

  lemma CleanWorld()
    ensures CleanWord("world!") == "world"
  {
  }
}
