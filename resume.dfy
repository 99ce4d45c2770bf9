/**
  The resume analyzer: five checks on the pasted text, each worth a share of
  a score out of 100, and one feedback line for each check that fails.
*/
module Resume {
  import opened Ascii

  const RequiredSkills: seq<string> :=
    ["python", "java", "javascript", "sql", "html", "css",
     "flask", "django", "react", "git", "api", "machine learning"]

  const ActionVerbs: seq<string> :=
    ["developed", "designed", "implemented", "optimized",
     "built", "created", "led", "improved", "managed"]

  /** The feedback lines, one per check. */
  datatype Tip = LengthTip | SkillsTip | VerbsTip | HeadingTip | DensityTip

  function Message(t: Tip): string {
    match t
    case LengthTip => "Resume length should be between 300–800 words."
    case SkillsTip => "Add more technical skills relevant to the job."
    case VerbsTip => "Use strong action verbs (e.g., developed, implemented)."
    case HeadingTip => "Use clear section headings (Experience, Skills, Projects)."
    case DensityTip => "Increase keyword density for ATS optimization."
  }

  /** `[w for w in ws if w in text]`: the entries occurring in `text`, in list order. */
  function Occurring(ws: seq<string>, text: string): (r: seq<string>)
    ensures |r| <= |ws|
    ensures forall w :: w in r <==> w in ws && Contains(text, w)
    ensures forall w :: multiset(r)[w] == if Contains(text, w) then multiset(ws)[w] else 0
  {
    if ws == [] then []
    else
      var head := if Contains(text, ws[0]) then [ws[0]] else [];
      var rest := Occurring(ws[1..], text);
      KeptCount(ws, head, rest, text);
      head + rest
  }

  /** The count of each entry after one more step of the filter. */
  lemma KeptCount(ws: seq<string>, head: seq<string>, rest: seq<string>, text: string)
    requires ws != [] && head == if Contains(text, ws[0]) then [ws[0]] else []
    requires forall w :: multiset(rest)[w] == if Contains(text, w) then multiset(ws[1..])[w] else 0
    ensures forall w :: multiset(head + rest)[w] == if Contains(text, w) then multiset(ws)[w] else 0
  {
    assert ws == [ws[0]] + ws[1..];
    assert multiset(ws) == multiset([ws[0]]) + multiset(ws[1..]);
    assert multiset(head + rest) == multiset(head) + multiset(rest);
  }

  /** The filter on a non-empty list: its first entry when it occurs, then the filter of the rest. */
  lemma OccurringUnfold(ws: seq<string>, text: string)
    requires ws != []
    ensures Occurring(ws, text) == (if Contains(text, ws[0]) then [ws[0]] else []) + Occurring(ws[1..], text)
  {
  }

  /** The filter keeps the list order: it maps a concatenation to the concatenation of its parts. */
  lemma {:induction false} OccurringAppend(a: seq<string>, b: seq<string>, text: string)
    ensures Occurring(a + b, text) == Occurring(a, text) + Occurring(b, text)
  {
    if a == [] {
      assert a + b == b;
    } else {
      var h := if Contains(text, a[0]) then [a[0]] else [];
      assert (a + b)[0] == a[0] && (a + b)[1..] == a[1..] + b;
      OccurringUnfold(a + b, text);
      OccurringUnfold(a, text);
      OccurringAppend(a[1..], b, text);
      AppendAssoc(h, Occurring(a[1..], text), Occurring(b, text));
    }
  }

  lemma AppendAssoc(h: seq<string>, x: seq<string>, y: seq<string>)
    ensures h + (x + y) == (h + x) + y
  {
  }

  /** A single entry is kept exactly when it occurs. */
  lemma OccurringSingle(w: string, text: string)
    ensures Occurring([w], text) == if Contains(text, w) then [w] else []
  {
    assert [w][1..] == [];
  }

  /** `skills_found`: the skills that are substrings of the lower-cased text. */
  function FoundSkills(text: string): seq<string> {
    Occurring(RequiredSkills, Lower(text))
  }

  /** `re.search(r"\n[A-Z][a-z]+", text)`: a line starting with a capital followed by a small letter. */
  predicate HasHeading(text: string) {
    exists i :: 0 <= i < |text| - 2 && text[i] == '\n' && IsUpper(text[i + 1]) && IsLower(text[i + 2])
  }

  predicate LengthOk(wordCount: nat) {
    300 <= wordCount <= 800
  }

  /**
    `len(found) / max(word_count, 1) >= 0.02`, over exact numbers: one skill
    for every fifty words.
  */
  predicate DenseEnough(found: nat, wordCount: nat) {
    50 * found >= (if wordCount > 1 then wordCount else 1)
  }

  function SkillPoints(found: nat): (p: nat)
    ensures p <= 40
    ensures found <= 10 ==> p == 4 * found
    ensures found >= 10 ==> p == 40
  {
    if 4 * found < 40 then 4 * found else 40
  }

  /** The outcome of the five checks on a text. */
  datatype Checks = Checks(lengthOk: bool, skills: nat, verbs: bool, heading: bool, dense: bool)

  function ChecksOf(text: string): Checks {
    var wordCount := |Words(text)|;
    var found := FoundSkills(text);
    Checks(LengthOk(wordCount), |found|, Occurring(ActionVerbs, Lower(text)) != [],
           HasHeading(text), DenseEnough(|found|, wordCount))
  }

  /** The sum of the shares of the checks that pass. */
  function Points(c: Checks): nat {
    (if c.lengthOk then 20 else 0)
    + SkillPoints(c.skills)
    + (if c.verbs then 20 else 0)
    + (if c.heading then 10 else 0)
    + (if c.dense then 10 else 0)
  }

  /** The feedback line of one check: none when it passes. */
  function Line(pass: bool, tip: Tip): seq<Tip> {
    if pass then [] else [tip]
  }

  /** The feedback lines, in the order of the checks; the skills line is given below five skills. */
  function Feedback(c: Checks): seq<Tip> {
    Line(c.lengthOk, LengthTip)
    + Line(c.skills >= 5, SkillsTip)
    + Line(c.verbs, VerbsTip)
    + Line(c.heading, HeadingTip)
    + Line(c.dense, DensityTip)
  }

  /**
    `analyze_resume`: the measurements of the text, then the score and the
    feedback; the score is capped at 100.
  */
  method AnalyzeResume(text: string) returns (score: nat, skillsFound: seq<string>, feedback: seq<Tip>)
    ensures score == if Points(ChecksOf(text)) < 100 then Points(ChecksOf(text)) else 100
    ensures skillsFound == FoundSkills(text)
    ensures feedback == Feedback(ChecksOf(text))
  {
    var textLower := Lower(text);
    var wordCount := |Words(text)|;
    skillsFound := Occurring(RequiredSkills, textLower);
    var foundVerbs := Occurring(ActionVerbs, textLower);
    var denominator := if wordCount > 1 then wordCount else 1;
    var c := Checks(300 <= wordCount <= 800, |skillsFound|, foundVerbs != [],
                    HasHeading(text), 50 * |skillsFound| >= denominator);
    score, feedback := Accumulate(c);
  }

  /** The score and the feedback built up check by check, in the order of `analyze_resume`. */
  method Accumulate(c: Checks) returns (score: nat, feedback: seq<Tip>)
    ensures score == (if Points(c) < 100 then Points(c) else 100)
    ensures feedback == Feedback(c)
  {
    score, feedback := Check(0, [], c.lengthOk, 20, LengthTip);
    var skillScore := if c.skills * 4 < 40 then c.skills * 4 else 40;
    score := score + skillScore;
    if c.skills < 5 {
      feedback := feedback + [SkillsTip];
    }
    assert feedback == Line(c.lengthOk, LengthTip) + Line(c.skills >= 5, SkillsTip);
    score, feedback := Check(score, feedback, c.verbs, 20, VerbsTip);
    score, feedback := Check(score, feedback, c.heading, 10, HeadingTip);
    score, feedback := Check(score, feedback, c.dense, 10, DensityTip);
    assert score == Points(c);
    score := if score < 100 then score else 100;
  }

  /** One check: its share when it passes, its feedback line when it fails. */
  method Check(score: nat, feedback: seq<Tip>, pass: bool, share: nat, tip: Tip)
    returns (score': nat, feedback': seq<Tip>)
    ensures score' == score + (if pass then share else 0)
    ensures feedback' == feedback + Line(pass, tip)
  {
    score', feedback' := score, feedback;
    if pass {
      score' := score' + share;
    } else {
      feedback' := feedback' + [tip];
    }
  }

  /** The shares add up to at most 100, so the cap never changes the score. */
  lemma ScoreRange(c: Checks)
    ensures 0 <= Points(c) <= 100
    ensures Points(c) % 2 == 0
  {
  }

  /** Each check's share is earned exactly when it passes. */
  lemma PointsOfChecks(c: Checks)
    ensures var rest := Points(c) - SkillPoints(c.skills);
      && (rest == 60 <==> c.lengthOk && c.verbs && c.heading && c.dense)
      && (rest < 20 ==> !c.lengthOk && !c.verbs)
  {
  }

  /** Each failing check adds exactly one line, the skills line when fewer than five skills are found. */
  lemma FeedbackLines(c: Checks)
    ensures var f := Feedback(c);
      && (LengthTip in f <==> !c.lengthOk)
      && (SkillsTip in f <==> c.skills < 5)
      && (VerbsTip in f <==> !c.verbs)
      && (HeadingTip in f <==> !c.heading)
      && (DensityTip in f <==> !c.dense)
      && |f| <= 5
  {
  }

  /**
    A full score leaves no feedback. No feedback guarantees at least 80:
    five skills already silence the skills line but earn only 20 of its 40.
  */
  lemma FullScoreNoFeedback(c: Checks)
    ensures Points(c) == 100 ==> Feedback(c) == []
    ensures Feedback(c) == [] ==> Points(c) >= 80
  {
  }

  /** `p in s` holds for every prefix `p` of a substring of `s`. */
  lemma {:induction false} ContainsPrefix(s: string, sub: string, p: string)
    requires Contains(s, sub) && IsPrefix(p, sub)
    ensures Contains(s, p)
    decreases |s|
  {
    if IsPrefix(sub, s) {
      assert s[..|p|] == sub[..|p|];
    } else {
      ContainsPrefix(s[1..], sub, p);
    }
  }

  /** When an entry is kept, so is every entry of the list that is a prefix of it. */
  lemma PrefixKept(ws: seq<string>, text: string, w: string, p: string)
    requires w in Occurring(ws, text) && p in ws && IsPrefix(p, w)
    ensures p in Occurring(ws, text)
  {
    ContainsPrefix(text, w, p);
  }

  lemma JavaPrefix()
    ensures IsPrefix("java", "javascript")
  {
    assert "javascript"[..4] == ['j', 'a', 'v', 'a'];
  }

  lemma JavaSkill()
    ensures "java" in RequiredSkills
  {
    assert RequiredSkills[1] == "java";
  }

  /** Substring matching means `java` is found in any text that names `javascript`. */
  lemma JavaInJavascript(text: string)
    ensures "javascript" in FoundSkills(text) ==> "java" in FoundSkills(text)
  {
    if "javascript" in FoundSkills(text) {
      JavaPrefix();
      JavaSkill();
      PrefixKept(RequiredSkills, Lower(text), "javascript", "java");
    }
  }
}
