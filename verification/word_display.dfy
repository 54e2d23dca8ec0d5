/**
 * The split of the current word into the letters before the focus letter,
 * the focus letter itself (drawn in red) and the letters after it
 * (components/WordDisplay.tsx).
 */
module WordDisplay {
  import opened Types
  import opened JsMath
  import TextProcessor

  /** A position clamped into [0, len], as `substring` clamps its arguments. */
  function ClampPosition(i: int, len: nat): (r: nat)
    ensures r <= len
    ensures 0 <= i <= len ==> r == i
    ensures i < 0 ==> r == 0
    ensures i > len ==> r == len
  {
    if i < 0 then 0 else if i > len then len else i
  }

  /** `String.prototype.substring(start, end)`: both ends are clamped into
      [0, |s|] and swapped when start is past end, so the result is always a
      contiguous piece of s. */
  function Substring(s: string, start: int, end: int): (r: string)
    ensures 0 <= start <= end <= |s| ==> r == s[start..end]
    ensures 0 <= end <= start <= |s| ==> r == s[end..start]
    ensures |r| <= |s|
    ensures start <= end ==> r == s[ClampPosition(start, |s|)..ClampPosition(end, |s|)]
    ensures end < start ==> r == s[ClampPosition(end, |s|)..ClampPosition(start, |s|)]
  {
    var a := ClampPosition(start, |s|);
    var b := ClampPosition(end, |s|);
    if a <= b then s[a..b] else s[b..a]
  }

  /** `String.prototype.substring(start)`: from start to the end of s. */
  function SubstringFrom(s: string, start: int): (r: string)
    ensures 0 <= start <= |s| ==> r == s[start..]
    ensures start >= |s| ==> r == []
    ensures start <= 0 ==> r == s
  {
    Substring(s, start, |s|)
  }

  /** The three spans the word is drawn in. */
  datatype WordParts = WordParts(before: string, focus: string, after: string)

  /** The before/focus/after split of a token at its focus offset. Together
      the three spans always spell the whole word; the focus is the one
      letter at the offset when the offset is inside the word and empty
      otherwise. */
  function SplitAtOrp(word: WordData): (parts: WordParts)
    ensures parts.before + parts.focus + parts.after == word.original
    ensures |parts.focus| <= 1
    ensures 0 <= word.orpIndex ==> |parts.before| == Min(word.orpIndex, |word.original|)
    ensures 0 <= word.orpIndex < |word.original| ==> parts.focus == [word.original[word.orpIndex]]
    ensures 0 <= word.orpIndex ==> (parts.focus == [] <==> word.orpIndex >= |word.original|)
    ensures 0 <= word.orpIndex ==>
      parts.after == if word.orpIndex + 1 <= |word.original| then word.original[word.orpIndex + 1..] else []
  {
    var original := word.original;
    var orpIndex := word.orpIndex;
    var a := ClampPosition(orpIndex, |original|);
    var b := ClampPosition(orpIndex + 1, |original|);
    var before := Substring(original, 0, orpIndex);
    assert before == original[..a];
    var focus := Substring(original, orpIndex, orpIndex + 1);
    assert focus == original[a..b];
    var after := SubstringFrom(original, orpIndex + 1);
    assert after == original[b..];
    assert original == original[..a] + original[a..b] + original[b..];
    WordParts(before, focus, after)
  }

  /** For the tokens the tokenizer makes, the focus span is empty exactly for
      the empty word. */
  lemma {:induction false} TokenFocusEmptyIff(text: string, i: int)
    requires 0 <= i < |TextProcessor.TokenizeText(text)|
    ensures var token := TextProcessor.TokenizeText(text)[i];
      SplitAtOrp(token).focus == [] <==> token.original == []
  {
  }
}
