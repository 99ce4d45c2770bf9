/**
  ASCII character classes and the handful of Python `str` operations the
  utilities rely on: lower/upper case, `strip`, `split`, `isdigit`, `int`,
  `str` of a natural number and the substring test `in`.

  Python classifies characters by Unicode; this model classifies ASCII only.
  A character above 0x7F is never upper, lower, a digit or whitespace, and it
  counts as printable.
*/
module Ascii {

  predicate IsUpper(c: char) { 'A' <= c <= 'Z' }
  predicate IsLower(c: char) { 'a' <= c <= 'z' }
  predicate IsDigit(c: char) { '0' <= c <= '9' }
  predicate IsLetter(c: char) { IsUpper(c) || IsLower(c) }

  /** `str.isspace` on one character: tab to carriage return, the separators 0x1C to 0x1F, and space. */
  predicate IsSpace(c: char) {
    c == ' ' || (9 <= c as int <= 13) || (28 <= c as int <= 31)
  }

  /** `str.isprintable` on one character. */
  predicate IsPrintable(c: char) {
    (32 <= c as int <= 126) || c as int >= 128
  }

  function ToLower(c: char): (r: char)
    ensures IsUpper(c) ==> IsLower(r) && r as int == c as int + 32
    ensures !IsUpper(c) ==> r == c
  {
    if IsUpper(c) then (c as int + 32) as char else c
  }

  function ToUpper(c: char): (r: char)
    ensures IsLower(c) ==> IsUpper(r) && r as int == c as int - 32
    ensures !IsLower(c) ==> r == c
  {
    if IsLower(c) then (c as int - 32) as char else c
  }

  /** `str.lower`. */
  function Lower(s: string): (r: string)
    ensures |r| == |s|
    ensures forall i :: 0 <= i < |s| ==> r[i] == ToLower(s[i])
  {
    if s == [] then [] else [ToLower(s[0])] + Lower(s[1..])
  }

  /** `str.upper`. */
  function Upper(s: string): (r: string)
    ensures |r| == |s|
    ensures forall i :: 0 <= i < |s| ==> r[i] == ToUpper(s[i])
  {
    if s == [] then [] else [ToUpper(s[0])] + Upper(s[1..])
  }

  lemma LowerIdempotent(s: string)
    ensures Lower(Lower(s)) == Lower(s)
  {
  }

  /** Lower-casing forgets an earlier upper-casing. */
  lemma LowerOfUpper(s: string)
    ensures Lower(Upper(s)) == Lower(s)
  {
    var a := Lower(Upper(s));
    var b := Lower(s);
    forall i | 0 <= i < |s|
      ensures a[i] == b[i]
    {
      assert a[i] == ToLower(Upper(s)[i]);
    }
  }

  predicate AllSpace(s: string) {
    forall i :: 0 <= i < |s| ==> IsSpace(s[i])
  }

  predicate NoSpace(s: string) {
    forall i :: 0 <= i < |s| ==> !IsSpace(s[i])
  }

  /** `str.isspace`: non-empty and whitespace throughout. */
  predicate IsSpaceStr(s: string) {
    |s| > 0 && AllSpace(s)
  }

  /** `str.isdigit`: non-empty and digits throughout. */
  predicate IsDigits(s: string) {
    |s| > 0 && forall i :: 0 <= i < |s| ==> IsDigit(s[i])
  }

  /** `str.isprintable` (true of the empty string, as in Python). */
  predicate IsPrintableStr(s: string) {
    forall i :: 0 <= i < |s| ==> IsPrintable(s[i])
  }

  /** `str.lstrip()`: the suffix left after dropping leading whitespace. */
  function LStrip(s: string): (r: string)
    ensures |r| <= |s| && r == s[|s| - |r|..]
    ensures r != [] ==> !IsSpace(r[0])
    ensures AllSpace(s[..|s| - |r|])
  {
    if s != [] && IsSpace(s[0]) then
      var r := LStrip(s[1..]);
      LStripStep(s, r);
      r
    else s
  }

  /** A suffix of `s[1..]` after whitespace is a suffix of `s` after whitespace, when `s[0]` is whitespace. */
  lemma LStripStep(s: string, r: string)
    requires s != [] && IsSpace(s[0])
    requires |r| <= |s| - 1 && r == s[1..][|s| - 1 - |r|..]
    requires AllSpace(s[1..][..|s| - 1 - |r|])
    ensures r == s[|s| - |r|..]
    ensures AllSpace(s[..|s| - |r|])
  {
    var t := s[1..];
    assert s[..|s| - |r|] == [s[0]] + t[..|t| - |r|];
  }

  /** `str.rstrip()`: the prefix left after dropping trailing whitespace. */
  function RStrip(s: string): (r: string)
    ensures |r| <= |s| && r == s[..|r|]
    ensures r != [] ==> !IsSpace(r[|r| - 1])
    ensures AllSpace(s[|r|..])
  {
    if s != [] && IsSpace(s[|s| - 1]) then
      var t := s[..|s| - 1];
      var r := RStrip(t);
      assert s[..|r|] == t[..|r|];
      assert s[|r|..] == t[|r|..] + [s[|s| - 1]];
      r
    else s
  }

  /** `str.strip()`. */
  function Strip(s: string): string {
    RStrip(LStrip(s))
  }

  /** A string that `strip` leaves as it is. */
  predicate IsStripped(s: string) {
    s == [] || (!IsSpace(s[0]) && !IsSpace(s[|s| - 1]))
  }

  lemma StripShape(s: string)
    ensures IsStripped(Strip(s))
    ensures Strip(s) == s <==> IsStripped(s)
    ensures Strip(s) == [] <==> AllSpace(s)
  {
    StripIsStripped(s);
    if IsStripped(s) {
      StrippedIsFixed(s);
    }
    StripEmpty(s);
  }

  lemma StripIsStripped(s: string)
    ensures IsStripped(Strip(s))
  {
    var l := LStrip(s);
    var r := RStrip(l);
    if r != [] {
      assert r[0] == l[0];
    }
  }

  lemma StrippedIsFixed(s: string)
    requires IsStripped(s)
    ensures Strip(s) == s
  {
    if s != [] {
      assert LStrip(s) == s;
      assert RStrip(s) == s;
    }
  }

  lemma AllSpaceConcat(a: string, b: string)
    ensures AllSpace(a + b) <==> AllSpace(a) && AllSpace(b)
  {
    if AllSpace(a) && AllSpace(b) {
      forall i | 0 <= i < |a + b| ensures IsSpace((a + b)[i]) {
        if i < |a| { assert (a + b)[i] == a[i]; } else { assert (a + b)[i] == b[i - |a|]; }
      }
    }
    if AllSpace(a + b) {
      forall i | 0 <= i < |a| ensures IsSpace(a[i]) { assert (a + b)[i] == a[i]; }
      forall i | 0 <= i < |b| ensures IsSpace(b[i]) { assert (a + b)[|a| + i] == b[i]; }
    }
  }

  lemma StripEmpty(s: string)
    ensures Strip(s) == [] <==> AllSpace(s)
  {
    LStripEmpty(s);
    RStripEmpty(LStrip(s));
  }

  lemma LStripEmpty(s: string)
    ensures LStrip(s) == [] <==> AllSpace(s)
  {
    var l := LStrip(s);
    if l == [] {
      assert s[..|s|] == s;
    } else {
      assert l[0] == s[|s| - |l|];
    }
  }

  /** A string that starts with no whitespace keeps something under `rstrip` unless it is empty. */
  lemma RStripEmpty(l: string)
    requires l == [] || !IsSpace(l[0])
    ensures RStrip(l) == [] <==> l == []
  {
  }

  lemma StripIdempotent(s: string)
    ensures Strip(Strip(s)) == Strip(s)
  {
    StripShape(s);
    StripShape(Strip(s));
  }

  /** The longest prefix of `s` without whitespace: the word `split` takes next. */
  function TakeWord(s: string): (r: string)
    ensures |r| <= |s| && r == s[..|r|]
    ensures NoSpace(r)
    ensures |r| == |s| || IsSpace(s[|r|])
    ensures s != [] && !IsSpace(s[0]) ==> |r| > 0
  {
    if s == [] || IsSpace(s[0]) then [] else [s[0]] + TakeWord(s[1..])
  }

  /** Words that `split` could return: non-empty and free of whitespace. */
  predicate GoodWords(ws: seq<string>) {
    ws == [] || (ws[0] != [] && NoSpace(ws[0]) && GoodWords(ws[1..]))
  }

  /** `str.split()` with no argument: the maximal runs of non-whitespace. */
  function Words(s: string): (ws: seq<string>)
    ensures GoodWords(ws)
    decreases |s|
  {
    var t := LStrip(s);
    if t == [] then []
    else
      var w := TakeWord(t);
      [w] + Words(t[|w|..])
  }

  /** One step of `split`: the first word, and the words of what follows it. */
  lemma WordsStep(s: string)
    requires LStrip(s) != []
    ensures var t := LStrip(s); var w := TakeWord(t);
      Words(s) == [w] + Words(t[|w|..])
  {
  }

  /**
    `seps[0] + ws[0] + seps[1] + ... + ws[n-1] + seps[n]`: words laid out
    between separators.
  */
  function Interleave(ws: seq<string>, seps: seq<string>): string
    requires |seps| == |ws| + 1
  {
    if ws == [] then seps[0] else seps[0] + ws[0] + Interleave(ws[1..], seps[1..])
  }

  /** Separators that are whitespace, and non-empty between two words. */
  predicate GoodSeparators(ws: seq<string>, seps: seq<string>) {
    && |seps| == |ws| + 1
    && AllSpace(seps[0])
    && (ws != [] ==> (|ws| > 1 ==> seps[1] != []) && GoodSeparators(ws[1..], seps[1..]))
  }

  lemma {:induction false} LStripSpacesPrefix(sp: string, t: string)
    requires AllSpace(sp)
    requires t == [] || !IsSpace(t[0])
    ensures LStrip(sp + t) == t
    decreases |sp|
  {
    if sp != [] {
      assert (sp + t)[1..] == sp[1..] + t;
      LStripSpacesPrefix(sp[1..], t);
    } else {
      assert sp + t == t;
    }
  }

  lemma TakeWordPrefix(w: string, rest: string)
    requires NoSpace(w)
    requires rest == [] || IsSpace(rest[0])
    ensures TakeWord(w + rest) == w
    decreases |w|
  {
    if w == [] {
      assert w + rest == rest;
    } else {
      assert (w + rest)[1..] == w[1..] + rest;
      TakeWordPrefix(w[1..], rest);
    }
  }

  lemma WordsOfSpaces(s: string)
    requires AllSpace(s)
    ensures Words(s) == []
  {
    LStripSpacesPrefix(s, []);
    assert s + [] == s;
  }

  /** A layout whose first separator is non-empty starts with whitespace. */
  lemma InterleaveStart(ws: seq<string>, seps: seq<string>)
    requires |seps| == |ws| + 1 && seps[0] != []
    ensures Interleave(ws, seps) != [] && Interleave(ws, seps)[0] == seps[0][0]
  {
    if ws != [] {
      assert Interleave(ws, seps) == seps[0] + (ws[0] + Interleave(ws[1..], seps[1..]));
    }
  }

  /** Whitespace, then a word, then a break: `split` yields that word first. */
  lemma WordsCons(sp: string, w: string, rest: string)
    requires AllSpace(sp) && w != [] && NoSpace(w)
    requires rest == [] || IsSpace(rest[0])
    ensures Words(sp + w + rest) == [w] + Words(rest)
  {
    var t := w + rest;
    assert t[0] == w[0];
    assert sp + w + rest == sp + t;
    LStripSpacesPrefix(sp, t);
    TakeWordPrefix(w, rest);
    assert t[|w|..] == rest;
    WordsStep(sp + t);
  }

  /**
    `split` undoes any layout of words between whitespace separators: the
    words of such a string are exactly the words laid out, whatever leading,
    trailing or repeated whitespace separates them.
  */
  lemma {:induction false} WordsOfInterleave(ws: seq<string>, seps: seq<string>)
    requires GoodWords(ws) && GoodSeparators(ws, seps)
    ensures Words(Interleave(ws, seps)) == ws
    decreases |ws|
  {
    if ws == [] {
      WordsOfSpaces(seps[0]);
    } else {
      var rest := Interleave(ws[1..], seps[1..]);
      WordsOfInterleave(ws[1..], seps[1..]);
      if |ws| > 1 {
        InterleaveStart(ws[1..], seps[1..]);
      }
      WordsCons(seps[0], ws[0], rest);
      assert [ws[0]] + ws[1..] == ws;
    }
  }

  /** The whitespace runs around the words of `s`, in order. */
  function Gaps(s: string): (seps: seq<string>)
    ensures |seps| == |Words(s)| + 1
    decreases |s|
  {
    var t := LStrip(s);
    var lead := s[..|s| - |t|];
    if t == [] then [lead]
    else
      var w := TakeWord(t);
      [lead] + Gaps(t[|w|..])
  }

  lemma {:induction false} GapsAreGood(s: string)
    ensures GoodSeparators(Words(s), Gaps(s))
    decreases |s|
  {
    if LStrip(s) != [] {
      var lead, w, u := SplitStep(s);
      GapsAreGood(u);
      if Words(u) != [] {
        GapsHead(u);
      }
      GoodSeparatorsCons(w, Words(u), lead, Gaps(u));
    } else {
      LStripEmpty(s);
      WordsOfSpaces(s);
    }
  }

  /** After a word, a string with more words starts with a non-empty gap. */
  lemma GapsHead(u: string)
    requires u == [] || IsSpace(u[0])
    requires Words(u) != []
    ensures Gaps(u)[0] != []
  {
    var t := LStrip(u);
    assert u != [];
    assert |t| < |u|;
  }

  lemma GoodSeparatorsCons(w: string, ws: seq<string>, lead: string, seps: seq<string>)
    requires AllSpace(lead) && GoodSeparators(ws, seps)
    requires ws != [] ==> seps[0] != []
    ensures GoodSeparators([w] + ws, [lead] + seps)
  {
    assert ([w] + ws)[1..] == ws;
    assert ([lead] + seps)[1..] == seps;
  }

  lemma InterleaveCons(w: string, ws: seq<string>, sep: string, seps: seq<string>)
    requires |seps| == |ws| + 1
    ensures Interleave([w] + ws, [sep] + seps) == sep + w + Interleave(ws, seps)
  {
    assert ([w] + ws)[1..] == ws;
    assert ([sep] + seps)[1..] == seps;
  }

  lemma {:induction false} GapsStep(s: string, t: string, w: string)
    requires t == LStrip(s) && t != [] && w == TakeWord(t)
    ensures Gaps(s) == [s[..|s| - |t|]] + Gaps(t[|w|..])
  {
    var lead := s[..|s| - |t|];
    var u := t[|w|..];
    assert Gaps(s) == [lead] + Gaps(u);
  }

  lemma SplitParts(s: string, t: string, w: string)
    requires |t| <= |s| && t == s[|s| - |t|..]
    requires |w| <= |t| && w == t[..|w|]
    ensures s == s[..|s| - |t|] + w + t[|w|..]
  {
    assert t == w + t[|w|..];
    assert s == s[..|s| - |t|] + t;
  }

  /** One step of `split` on a string with a word: its leading gap, its first word, the rest. */
  lemma SplitStep(s: string) returns (lead: string, w: string, u: string)
    requires LStrip(s) != []
    ensures s == lead + w + u && |u| < |s|
    ensures AllSpace(lead) && w != [] && NoSpace(w) && (u == [] || IsSpace(u[0]))
    ensures Words(s) == [w] + Words(u)
    ensures Gaps(s) == [lead] + Gaps(u)
  {
    var t := LStrip(s);
    lead := s[..|s| - |t|];
    w := TakeWord(t);
    u := t[|w|..];
    WordsStep(s);
    GapsStep(s, t, w);
    SplitParts(s, t, w);
  }

  /** Every string is its words laid out between its gaps. */
  lemma {:induction false} InterleaveWordsGaps(s: string)
    ensures Interleave(Words(s), Gaps(s)) == s
    decreases |s|
  {
    if LStrip(s) != [] {
      var lead, w, u := SplitStep(s);
      InterleaveWordsGaps(u);
      InterleaveCons(w, Words(u), lead, Gaps(u));
    } else {
      assert s[..|s|] == s;
    }
  }

  lemma LStripOfLStrip(s: string)
    ensures LStrip(LStrip(s)) == LStrip(s)
  {
  }

  /** Leading whitespace does not reach past the first non-space character. */
  lemma {:induction false} LStripAppend(t: string, sp: string)
    requires LStrip(t) != []
    ensures LStrip(t + sp) == LStrip(t) + sp
    decreases |t|
  {
    HeadAppend(t, sp);
    if IsSpace(t[0]) {
      LStripAppend(t[1..], sp);
    }
  }

  /** The head and the tail of a concatenation whose left part is non-empty. */
  lemma HeadAppend(t: string, sp: string)
    requires t != []
    ensures (t + sp)[0] == t[0] && (t + sp)[1..] == t[1..] + sp
  {
  }

  /** A word ends at whitespace or at the end of the string, so trailing whitespace does not extend it. */
  lemma {:induction false} TakeWordAppend(u: string, sp: string)
    requires AllSpace(sp)
    ensures TakeWord(u + sp) == TakeWord(u)
    decreases |u|
  {
    if u == [] {
      assert u + sp == sp;
    } else if !IsSpace(u[0]) {
      assert (u + sp)[1..] == u[1..] + sp;
      TakeWordAppend(u[1..], sp);
    }
  }

  lemma NoWordsAppendSpaces(t: string, sp: string)
    requires AllSpace(sp) && LStrip(t) == []
    ensures Words(t + sp) == [] && Words(t) == []
  {
    assert AllSpace(t) by {
      assert t[..|t|] == t;
    }
    AllSpaceConcat(t, sp);
    WordsOfSpaces(t + sp);
    WordsOfSpaces(t);
  }

  lemma WordsConsAppend(lead: string, w: string, u: string, sp: string)
    requires AllSpace(lead) && w != [] && NoSpace(w) && (u == [] || IsSpace(u[0]))
    requires AllSpace(sp)
    ensures Words(lead + w + u + sp) == [w] + Words(u + sp)
  {
    assert lead + w + u + sp == lead + w + (u + sp);
    assert u + sp == [] || IsSpace((u + sp)[0]) by {
      if u == [] { assert u + sp == sp; } else { assert (u + sp)[0] == u[0]; }
    }
    WordsCons(lead, w, u + sp);
  }

  /** Trailing whitespace adds no word. */
  lemma {:induction false} WordsAppendSpaces(t: string, sp: string)
    requires AllSpace(sp)
    ensures Words(t + sp) == Words(t)
    decreases |t|
  {
    if LStrip(t) == [] {
      NoWordsAppendSpaces(t, sp);
    } else {
      var lead, w, u := SplitStep(t);
      WordsConsAppend(lead, w, u, sp);
      WordsAppendSpaces(u, sp);
    }
  }

  /**
    `split` ignores leading and trailing whitespace, so splitting the stripped
    string gives the same words.
  */
  lemma WordsOfStrip(s: string)
    ensures Words(Strip(s)) == Words(s)
  {
    WordsOfRStrip(LStrip(s));
    WordsOfLStrip(s);
  }

  /** Trailing whitespace adds no word. */
  lemma WordsOfRStrip(l: string)
    ensures Words(RStrip(l)) == Words(l)
  {
    var r := RStrip(l);
    var sp := l[|r|..];
    assert l == r + sp;
    WordsAppendSpaces(r, sp);
  }

  /** Leading whitespace adds no word. */
  lemma WordsOfLStrip(s: string)
    ensures Words(LStrip(s)) == Words(s)
  {
    LStripOfLStrip(s);
  }

  /** `int(s)` for a string of digits (and 0 for the empty string). */
  function DigitsValue(s: string): nat
  {
    if s == [] then 0
    else DigitsValue(s[..|s| - 1]) * 10 + (s[|s| - 1] as int - '0' as int) % 10
  }

  /** `str(n)` for a natural number: its decimal digits without leading zeros. */
  function NatToString(n: nat): (r: string)
    ensures IsDigits(r)
    ensures |r| > 1 ==> r[0] != '0'
  {
    if n < 10 then [('0' as int + n) as char]
    else NatToString(n / 10) + [('0' as int + n % 10) as char]
  }

  lemma {:induction false} NatToStringValue(n: nat)
    ensures DigitsValue(NatToString(n)) == n
  {
    if n >= 10 {
      NatToStringValue(n / 10);
      var r := NatToString(n);
      assert r[..|r| - 1] == NatToString(n / 10);
    }
  }

  /** `f"{n:02d}"`: at least two digits, zero-padded. */
  function PadTwo(n: nat): (r: string)
    ensures IsDigits(r) && |r| >= 2
    ensures n < 100 ==> |r| == 2
  {
    assert n >= 10 ==> NatToString(n) == NatToString(n / 10) + [('0' as int + n % 10) as char];
    if n < 10 then "0" + NatToString(n) else NatToString(n)
  }

  predicate IsPrefix(p: string, s: string) {
    |p| <= |s| && s[..|p|] == p
  }

  /** `sub in s` on strings. */
  predicate Contains(s: string, sub: string)
    decreases |s|
  {
    IsPrefix(sub, s) || (s != [] && Contains(s[1..], sub))
  }

  lemma ContainsAt(s: string, sub: string, i: nat)
    requires i + |sub| <= |s| && s[i..i + |sub|] == sub
    ensures Contains(s, sub)
    decreases i
  {
    if i > 0 {
      assert s[1..][i - 1..i - 1 + |sub|] == sub;
      ContainsAt(s[1..], sub, i - 1);
    }
  }

  /** Conversely, `sub in s` names a position where `sub` starts. */
  lemma {:induction false} ContainsWitness(s: string, sub: string) returns (i: nat)
    requires Contains(s, sub)
    ensures i + |sub| <= |s| && s[i..i + |sub|] == sub
    decreases |s|
  {
    if IsPrefix(sub, s) {
      i := 0;
    } else {
      var j := ContainsWitness(s[1..], sub);
      assert s[1..][j..j + |sub|] == s[j + 1..j + 1 + |sub|];
      i := j + 1;
    }
  }

  /** `sub` starts at position `i` of `s`. */
  predicate StartsAt(s: string, sub: string, i: nat) {
    i + |sub| <= |s| && s[i..i + |sub|] == sub
  }

  /** `sub in s` holds exactly when `sub` starts at some position of `s`. */
  lemma {:induction false} ContainsIff(s: string, sub: string)
    ensures Contains(s, sub) <==> exists i: nat :: StartsAt(s, sub, i)
  {
    if Contains(s, sub) {
      var i := ContainsWitness(s, sub);
      assert StartsAt(s, sub, i);
    }
    if exists i: nat :: StartsAt(s, sub, i) {
      var i: nat :| StartsAt(s, sub, i);
      ContainsAt(s, sub, i);
    }
  }
}
