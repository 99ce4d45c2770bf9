/** The word counter: the words of the stripped text and the length of the text itself. */
module WordCounter {
  import opened Ascii

  /** `count_words`: `len(text.strip().split())` and `len(text)`. */
  function CountWords(text: string): (r: (nat, nat))
    ensures r.0 == |Words(text)|
    ensures r.1 == |text|
  {
    var words: nat := |Words(Strip(text))|;
    assert words == |Words(text)| by { WordsOfStrip(text); }
    (words, |text|)
  }

  /** Empty or whitespace-only text has no words. */
  lemma BlankHasNoWords(text: string)
    requires AllSpace(text)
    ensures CountWords(text).0 == 0
  {
    WordsOfSpaces(text);
  }

  /**
    The count is the number of words laid out, whatever whitespace
    separates them, leads them or trails them; the character count takes
    the whitespace in.
  */
  lemma CountIgnoresLayout(ws: seq<string>, seps: seq<string>)
    requires GoodWords(ws) && GoodSeparators(ws, seps)
    ensures CountWords(Interleave(ws, seps)).0 == |ws|
  {
    WordsOfInterleave(ws, seps);
  }

  /** The count is the number of maximal runs of non-whitespace: the text is those runs between its gaps. */
  lemma CountIsRuns(text: string)
    ensures GoodWords(Words(text)) && GoodSeparators(Words(text), Gaps(text))
    ensures Interleave(Words(text), Gaps(text)) == text
    ensures CountWords(text).0 == |Words(text)|
  {
    GapsAreGood(text);
    InterleaveWordsGaps(text);
  }

  /** Stripping the text first changes neither count of the stripped words. */
  lemma StripKeepsWordCount(text: string)
    ensures CountWords(Strip(text)).0 == CountWords(text).0
  {
    WordsOfStrip(text);
  }
}
