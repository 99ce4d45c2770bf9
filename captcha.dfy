/**
  The CAPTCHA generator: a text drawn from the alphabet of a difficulty,
  the display format of that difficulty, the hint, and the check of the
  typed answer. Every random choice (a length, a character, a separator,
  a noise mark) is a parameter: an index, or a stream of indices, reduced
  modulo the number of options.
*/
module Captcha {
  import opened Ascii
  import opened Wrappers

  /** `difficulty` as the generator reads it: anything but `easy` and `medium` is hard. */
  datatype Level = Easy | Medium | Hard

  function LevelOf(difficulty: string): Level {
    if difficulty == "easy" then Easy else if difficulty == "medium" then Medium else Hard
  }

  /** The sizes of `digits`, `ascii_uppercase + digits` and `ascii_letters + digits`. */
  function AlphabetSize(l: Level): nat {
    match l
    case Easy => 10
    case Medium => 36
    case Hard => 62
  }

  /** The `k`-th character of the alphabet of a level, in the order of the `string` constants. */
  function CharAt(l: Level, k: nat): (c: char)
    requires k < AlphabetSize(l)
    ensures l == Easy ==> IsDigit(c)
    ensures l == Medium ==> IsUpper(c) || IsDigit(c)
    ensures l == Hard ==> IsLetter(c) || IsDigit(c)
  {
    match l
    case Easy => ('0' as int + k) as char
    case Medium => if k < 26 then ('A' as int + k) as char else ('0' as int + k - 26) as char
    case Hard =>
      if k < 26 then ('a' as int + k) as char
      else if k < 52 then ('A' as int + k - 26) as char
      else ('0' as int + k - 52) as char
  }

  predicate InAlphabet(l: Level, c: char) {
    match l
    case Easy => IsDigit(c)
    case Medium => IsUpper(c) || IsDigit(c)
    case Hard => IsLetter(c) || IsDigit(c)
  }

  /** The position of a character in the alphabet. */
  function IndexIn(l: Level, c: char): (k: nat)
    requires InAlphabet(l, c)
    ensures k < AlphabetSize(l) && CharAt(l, k) == c
  {
    match l
    case Easy => c as int - '0' as int
    case Medium => if IsUpper(c) then c as int - 'A' as int else 26 + c as int - '0' as int
    case Hard =>
      if IsLower(c) then c as int - 'a' as int
      else if IsUpper(c) then 26 + c as int - 'A' as int
      else 52 + c as int - '0' as int
  }

  /** Every character of the alphabet can be drawn, and nothing else can. */
  lemma AlphabetExact(l: Level, c: char)
    ensures InAlphabet(l, c) <==> exists k :: 0 <= k < AlphabetSize(l) && CharAt(l, k) == c
  {
    if InAlphabet(l, c) {
      var k := IndexIn(l, c);
      assert CharAt(l, k) == c;
    }
  }

  // ----- Generation -----

  /** `random.randint(4, 5)` or `random.randint(5, 7)`, from a drawn index. */
  function DefaultLength(l: Level, draw: nat): (n: nat)
    ensures l != Hard ==> 4 <= n <= 5
    ensures l == Hard ==> 5 <= n <= 7
  {
    if l == Hard then 5 + draw % 3 else 4 + draw % 2
  }

  /** `range(length)` is empty for a negative length. */
  function LengthOf(l: Level, length: Option<int>, draw: nat): (n: nat)
    ensures length.Some? && length.value >= 0 ==> n == length.value
    ensures length.Some? && length.value < 0 ==> n == 0
    ensures length.None? ==> n == DefaultLength(l, draw)
  {
    match length
    case Some(x) => if x < 0 then 0 else x
    case None => DefaultLength(l, draw)
  }

  /** `"".join(random.choice(chars) for _ in range(n))`, with `pick(i)` the `i`-th choice. */
  function Draw(l: Level, n: nat, pick: nat -> nat): (s: string)
    ensures |s| == n
    ensures forall i :: 0 <= i < n ==> InAlphabet(l, s[i])
  {
    var s := seq(n, i requires 0 <= i => CharAt(l, pick(i) % AlphabetSize(l)));
    forall i | 0 <= i < n ensures InAlphabet(l, s[i]) {
      var c := CharAt(l, pick(i) % AlphabetSize(l));
      assert s[i] == c;
    }
    s
  }

  // ----- Display -----

  const Separators: seq<char> := ['-', '_', '.', '~']
  const Noises: seq<char> := ['*', '#', '@', '+']

  /** `sep.join(s)`: one separator between neighbouring characters. */
  function Join(s: string, sep: char): (r: string)
    ensures s == [] ==> r == []
    ensures s != [] ==> |r| == 2 * |s| - 1
    ensures forall i :: 0 <= i < |s| ==> r[2 * i] == s[i]
    ensures forall i :: 0 <= i < |s| - 1 ==> r[2 * i + 1] == sep
  {
    if |s| <= 1 then s
    else
      var t := s[..|s| - 1];
      var j := Join(t, sep);
      JoinStep(s, t, sep, j);
      j + [sep, s[|s| - 1]]
  }

  /** Appending a separator and the last character to the join of the front. */
  lemma JoinStep(s: string, t: string, sep: char, j: string)
    requires |s| >= 2 && t == s[..|s| - 1]
    requires |j| == 2 * |t| - 1
    requires forall i :: 0 <= i < |t| ==> j[2 * i] == t[i]
    requires forall i :: 0 <= i < |t| - 1 ==> j[2 * i + 1] == sep
    ensures var r := j + [sep, s[|s| - 1]];
      |r| == 2 * |s| - 1
      && (forall i :: 0 <= i < |s| ==> r[2 * i] == s[i])
      && (forall i :: 0 <= i < |s| - 1 ==> r[2 * i + 1] == sep)
  {
    var r := j + [sep, s[|s| - 1]];
    forall i | 0 <= i < |s| ensures r[2 * i] == s[i] {
      if i < |t| {
        assert r[2 * i] == j[2 * i] == t[i];
      }
    }
    forall i | 0 <= i < |s| - 1 ensures r[2 * i + 1] == sep {
      if i < |t| - 1 {
        assert r[2 * i + 1] == j[2 * i + 1];
      }
    }
  }

  /** The case of the hard display: upper at even positions, lower at odd ones. */
  function CaseAt(i: nat, c: char): char {
    if i % 2 == 0 then ToUpper(c) else ToLower(c)
  }

  /** The hard display: each character in its alternating case, followed by the separator. */
  function HardDisplay(s: string, sep: char): (r: string)
    ensures |r| == 2 * |s|
    ensures forall i :: 0 <= i < |s| ==> r[2 * i] == CaseAt(i, s[i]) && r[2 * i + 1] == sep
  {
    if s == [] then []
    else
      var r := HardDisplay(s[..|s| - 1], sep) + [CaseAt(|s| - 1, s[|s| - 1]), sep];
      assert forall i :: 0 <= i < |s| - 1 ==> r[2 * i] == CaseAt(i, s[..|s| - 1][i]);
      r
  }

  /** `_format_captcha` with separator `sep` and noise mark `noise`. */
  function Display(captcha: string, l: Level, sep: char, noise: char): string {
    match l
    case Easy => Join(captcha, sep)
    case Medium => [noise, ' '] + Join(captcha, sep) + [' ', noise]
    case Hard => HardDisplay(captcha, sep)
  }

  /**
    `_format_captcha`: the separator and the noise mark are drawn from
    their lists by index; the hard branch builds the text a character at a
    time.
  */
  method FormatCaptcha(captcha: string, difficulty: string, sepDraw: nat, noiseDraw: nat) returns (formatted: string)
    ensures formatted == Display(captcha, LevelOf(difficulty), Separators[sepDraw % 4], Noises[noiseDraw % 4])
  {
    var separator := Separators[sepDraw % 4];
    if difficulty == "easy" {
      formatted := Join(captcha, separator);
    } else if difficulty == "medium" {
      var noise := Noises[noiseDraw % 4];
      formatted := [noise, ' '] + Join(captcha, separator) + [' ', noise];
    } else {
      formatted := "";
      for i := 0 to |captcha|
        invariant formatted == HardDisplay(captcha[..i], separator)
      {
        assert captcha[..i + 1][..i] == captcha[..i];
        if i % 2 == 0 {
          formatted := formatted + [ToUpper(captcha[i])];
        } else {
          formatted := formatted + [ToLower(captcha[i])];
        }
        formatted := formatted + [separator];
      }
      assert captcha[..|captcha|] == captcha;
    }
  }

  /** `generate_captcha`: the text and its display. */
  method GenerateCaptcha(difficulty: string, length: Option<int>, lengthDraw: nat, pick: nat -> nat,
                         sepDraw: nat, noiseDraw: nat)
    returns (captcha: string, display: string)
    ensures var l := LevelOf(difficulty);
      && captcha == Draw(l, LengthOf(l, length, lengthDraw), pick)
      && display == Display(captcha, l, Separators[sepDraw % 4], Noises[noiseDraw % 4])
  {
    var l := LevelOf(difficulty);
    var n := LengthOf(l, length, lengthDraw);
    captcha := Draw(l, n, pick);
    display := FormatCaptcha(captcha, difficulty, sepDraw, noiseDraw);
  }

  /** A generated text has the requested length, or a default one, and only characters of its alphabet. */
  lemma GeneratedShape(difficulty: string, length: Option<int>, lengthDraw: nat, pick: nat -> nat)
    ensures var l := LevelOf(difficulty); var c := Draw(l, LengthOf(l, length, lengthDraw), pick);
      && (length.None? && l != Hard ==> 4 <= |c| <= 5)
      && (length.None? && l == Hard ==> 5 <= |c| <= 7)
      && (length.Some? && length.value >= 0 ==> |c| == length.value)
      && (forall i :: 0 <= i < |c| ==> InAlphabet(l, c[i]))
  {
  }

  /** Easy and medium displays show each character once between separators; the hard display shows `2n` characters. */
  lemma DisplayLengths(captcha: string, sep: char, noise: char)
    requires captcha != []
    ensures |Display(captcha, Easy, sep, noise)| == 2 * |captcha| - 1
    ensures |Display(captcha, Medium, sep, noise)| == 2 * |captcha| + 3
    ensures |Display(captcha, Hard, sep, noise)| == 2 * |captcha|
  {
  }

  /** The characters a reader takes from a display with one separator after each character. */
  function Shown(display: string): (s: string)
    ensures |s| == |display| / 2
    ensures forall i :: 0 <= i < |s| ==> s[i] == display[2 * i]
  {
    seq(|display| / 2, i requires 0 <= i < |display| / 2 => display[2 * i])
  }

  /** The hard display shows the text in alternating case. */
  function AlternateCase(s: string): (r: string)
    ensures |r| == |s| && forall i :: 0 <= i < |s| ==> r[i] == CaseAt(i, s[i])
  {
    seq(|s|, i requires 0 <= i < |s| => CaseAt(i, s[i]))
  }

  lemma ShownHard(s: string, sep: char)
    ensures Shown(HardDisplay(s, sep)) == AlternateCase(s)
  {
  }

  // ----- Verification -----

  /** `verify_captcha`. */
  function VerifyCaptcha(captcha: string, userInput: string, caseSensitive: bool): bool {
    if !caseSensitive then Lower(captcha) == Lower(userInput) else captcha == userInput
  }

  /** The check is reflexive and symmetric, and a case-sensitive match is also a case-insensitive one. */
  lemma VerifyProperties(a: string, b: string, caseSensitive: bool)
    ensures VerifyCaptcha(a, a, caseSensitive)
    ensures VerifyCaptcha(a, b, caseSensitive) == VerifyCaptcha(b, a, caseSensitive)
    ensures VerifyCaptcha(a, b, true) ==> VerifyCaptcha(a, b, false)
  {
  }

  /** Ignoring case, typing the text in any case is accepted. */
  lemma VerifyIgnoresCase(captcha: string)
    ensures VerifyCaptcha(captcha, Upper(captcha), false)
    ensures VerifyCaptcha(captcha, AlternateCase(captcha), false)
  {
    LowerOfUpper(captcha);
    LowerOfAlternate(captcha);
  }

  /** Lower-casing forgets the alternating case. */
  lemma LowerOfAlternate(s: string)
    ensures Lower(AlternateCase(s)) == Lower(s)
  {
    var a := Lower(AlternateCase(s));
    var b := Lower(s);
    forall i | 0 <= i < |s|
      ensures a[i] == b[i]
    {
      assert a[i] == ToLower(CaseAt(i, s[i]));
      LowerCaseAt(i, s[i]);
    }
    assert |a| == |b|;
  }

  lemma LowerCaseAt(i: nat, c: char)
    ensures ToLower(CaseAt(i, c)) == ToLower(c)
  {
  }

  /**
    As written, the answer to a hard CAPTCHA is compared case-sensitively
    with the drawn text, while the display alters its case. Typing the
    display's characters is accepted exactly when the text already has the
    alternating case.
  */
  lemma HardAnswerAsShown(captcha: string, sep: char)
    ensures VerifyCaptcha(captcha, Shown(HardDisplay(captcha, sep)), true) <==> captcha == AlternateCase(captcha)
  {
    ShownHard(captcha, sep);
  }

  /** For the text `aB` the display reads `A-b-`, and the typed `Ab` is refused. */
  lemma HardAnswerRefused()
    ensures HardDisplay("aB", '-') == "A-b-"
    ensures Shown(HardDisplay("aB", '-')) == "Ab"
    ensures !VerifyCaptcha("aB", "Ab", true)
  {
    var d := HardDisplay("aB", '-');
    assert d[0] == 'A' && d[2] == 'b';
    ShownHard("aB", '-');
  }

  /**
    The verification step of `main`: the typed line is stripped and compared
    with the drawn text, case-sensitively only at the `hard` level.
  */
  function MainVerifies(captcha: string, difficulty: string, line: string): bool {
    VerifyCaptcha(captcha, Strip(line), difficulty == "hard")
  }

  /**
    So in `main`, a hard answer whose stripped line is what the display shows
    is accepted exactly when the text already has the alternating case.
  */
  lemma MainHardAsShown(captcha: string, sep: char, line: string)
    requires Strip(line) == Shown(HardDisplay(captcha, sep))
    ensures MainVerifies(captcha, "hard", line) <==> captcha == AlternateCase(captcha)
  {
    HardAnswerAsShown(captcha, sep);
  }

  /** In `main`, the text `aB` refuses the typed `Ab` at the hard level and accepts it at the easy level. */
  lemma MainRefusesShown()
    ensures !MainVerifies("aB", "hard", "Ab")
    ensures MainVerifies("aB", "easy", "Ab")
  {
    StrippedIsFixed("Ab");
    HardAnswerRefused();
    ShownHard("aB", '-');
    LowerOfAlternate("aB");
  }

  /**
    The check main evidently intends for a hard CAPTCHA: the answer is
    what the display shows, compared case-sensitively.
  */
  function ExpectedAnswer(captcha: string, l: Level): string {
    if l == Hard then AlternateCase(captcha) else captcha
  }

  function VerifyAnswer(captcha: string, l: Level, userInput: string): bool {
    VerifyCaptcha(ExpectedAnswer(captcha, l), userInput, l == Hard)
  }

  /**
    With that check, typing the characters shown is always accepted, at every
    level; at the medium level they are the ones between the two noise marks.
  */
  lemma ShownIsAccepted(captcha: string, sep: char, noise: char)
    ensures VerifyAnswer(captcha, Hard, Shown(HardDisplay(captcha, sep)))
    ensures VerifyAnswer(captcha, Easy, Shown(Join(captcha, sep) + [sep]))
    ensures var d := Display(captcha, Medium, sep, noise);
      VerifyAnswer(captcha, Medium, Shown(d[2..|d| - 2] + [sep]))
  {
    ShownHard(captcha, sep);
    var j := Join(captcha, sep) + [sep];
    assert Shown(j) == captcha;
    var d := Display(captcha, Medium, sep, noise);
    assert d[2..|d| - 2] == Join(captcha, sep);
  }

  // ----- Hints and the menu -----

  /** `hints[difficulty]`; `None` is the `KeyError` of any other name. */
  function Hint(difficulty: string, n: nat): (h: Option<string>)
    ensures h.Some? <==> difficulty in {"easy", "medium", "hard"}
  {
    if difficulty == "easy" then Some("Enter the " + NatToString(n) + " numbers you see")
    else if difficulty == "medium" then Some("Enter the " + NatToString(n) + " alphanumeric characters (case-insensitive)")
    else if difficulty == "hard" then Some("Enter the " + NatToString(n) + " characters exactly as shown (case-sensitive)")
    else None
  }

  /** The record `generate_with_hint` returns, or the `KeyError` of an unknown difficulty. */
  datatype Hinted =
    | Hinted(captcha: string, display: string, hint: string, length: nat, difficulty: string)
    | HintKeyError

  /** `generate_with_hint`: the CAPTCHA is drawn first, then the hint is looked up. */
  method GenerateWithHint(difficulty: string, length: Option<int>, lengthDraw: nat, pick: nat -> nat,
                          sepDraw: nat, noiseDraw: nat)
    returns (r: Hinted)
    ensures r.HintKeyError? <==> difficulty !in {"easy", "medium", "hard"}
    ensures r.Hinted? ==>
      var l := LevelOf(difficulty);
      && r.captcha == Draw(l, LengthOf(l, length, lengthDraw), pick)
      && r.display == Display(r.captcha, l, Separators[sepDraw % 4], Noises[noiseDraw % 4])
      && r.length == |r.captcha|
      && Hint(difficulty, r.length) == Some(r.hint)
      && r.difficulty == difficulty
  {
    var captcha, display := GenerateCaptcha(difficulty, length, lengthDraw, pick, sepDraw, noiseDraw);
    var hint := Hint(difficulty, |captcha|);
    if hint.None? {
      return HintKeyError;
    }
    return Hinted(captcha, display, hint.value, |captcha|, difficulty);
  }

  /** An unknown difficulty is drawn and displayed as hard, but has no hint. */
  lemma UnknownDifficulty(difficulty: string)
    requires difficulty !in {"easy", "medium", "hard"}
    ensures LevelOf(difficulty) == Hard && Hint(difficulty, 0).None?
  {
  }

  /** `max(4, min(10, length))` of the custom menu entry. */
  function ClampLength(length: int): (n: int)
    ensures 4 <= n <= 10
    ensures 4 <= length <= 10 ==> n == length
    ensures length < 4 ==> n == 4
    ensures length > 10 ==> n == 10
  {
    if length < 4 then 4 else if length > 10 then 10 else length
  }

  /**
    The custom entry of the menu: `length` is the parsed number, `None`
    when `int()` fails, which falls back to a medium CAPTCHA of default
    length; a difficulty other than the three names becomes medium.
  */
  function CustomRequest(length: Option<int>, difficultyLine: string): (r: (string, Option<int>))
    ensures r.0 in {"easy", "medium", "hard"}
    ensures length.None? ==> r == ("medium", None)
    ensures length.Some? ==> r.1 == Some(ClampLength(length.value))
  {
    if length.None? then ("medium", None)
    else
      var d := Lower(Strip(difficultyLine));
      (if d in {"easy", "medium", "hard"} then d else "medium", Some(ClampLength(length.value)))
  }
}
