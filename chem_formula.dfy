/**
  `parse_formula` of the chemistry toolkit: bracket groups are expanded
  innermost first by rewriting the formula text, and the element tokens of
  the result are then tallied against the periodic table.

  The two regular expressions of the parser are modelled as functions:
  `Tokens` is `re.finditer(r'([A-Z][a-z]?)(\d*)', s)` and `Search` is
  `re.search(r'[\(\[]([^\(\)\[\]]+)[\)\]](\d*)', s)`.
*/
module ChemFormula {
  import opened Ascii
  import opened Wrappers
  import ChemTable

  /** One match of `([A-Z][a-z]?)(\d*)`: the symbol, and the count its digits stand for. */
  datatype Token = Token(symbol: string, count: nat)

  /** `\d*` from position `k`, greedy: where the run of digits starting there ends. */
  function DigitEnd(s: string, k: nat): (e: nat)
    requires k <= |s|
    ensures k <= e <= |s|
    ensures forall i :: k <= i < e ==> IsDigit(s[i])
    ensures e == |s| || !IsDigit(s[e])
    decreases |s| - k
  {
    if k == |s| || !IsDigit(s[k]) then k else DigitEnd(s, k + 1)
  }

  /** `int(d) if d else 1`. */
  function CountOf(d: string): nat {
    if d == [] then 1 else DigitsValue(d)
  }

  /** The length of `[A-Z][a-z]?` at the start of `s`. */
  function SymbolLength(s: string): nat
    requires s != []
  {
    if |s| >= 2 && IsLower(s[1]) then 2 else 1
  }

  /**
    The element tokens of `s`, left to right. A match starts only at a
    capital letter; every other character where no match starts is skipped.
  */
  function Tokens(s: string): (ts: seq<Token>)
    ensures forall i :: 0 <= i < |ts| ==> ChemTable.SymbolShape(ts[i].symbol)
    decreases |s|
  {
    if s == [] then []
    else if !IsUpper(s[0]) then Tokens(s[1..])
    else
      var k := SymbolLength(s);
      var e := DigitEnd(s, k);
      [Token(s[..k], CountOf(s[k..e]))] + Tokens(s[e..])
  }

  predicate IsOpen(c: char) { c == '(' || c == '[' }
  predicate IsClose(c: char) { c == ')' || c == ']' }
  predicate IsBracket(c: char) { IsOpen(c) || IsClose(c) }

  /** The first bracket at or after `k`, or the end of `s`. */
  function NextBracket(s: string, k: nat): (j: nat)
    requires k <= |s|
    ensures k <= j <= |s|
    ensures forall i :: k <= i < j ==> !IsBracket(s[i])
    ensures j == |s| || IsBracket(s[j])
    decreases |s| - k
  {
    if k == |s| || IsBracket(s[k]) then k else NextBracket(s, k + 1)
  }

  /**
    `[\(\[]([^\(\)\[\]]+)[\)\]]` matches at `i`: an opening bracket of either
    kind, at least one character that is not a bracket, then a closing
    bracket of either kind.
  */
  predicate GroupAt(s: string, i: nat) {
    && i < |s| && IsOpen(s[i])
    && var j := NextBracket(s, i + 1); i + 1 < j < |s| && IsClose(s[j])
  }

  /** A match of the group pattern: where it starts, the inner text, the multiplier digits, where it ends. */
  datatype Group = Group(start: nat, inner: string, digits: string, end: nat)

  function GroupMatch(s: string, i: nat): (g: Group)
    requires GroupAt(s, i)
    ensures g.start == i < g.end <= |s|
  {
    var j := NextBracket(s, i + 1);
    var e := DigitEnd(s, j + 1);
    Group(i, s[i + 1..j], s[j + 1..e], e)
  }

  /** The text a match covers: opening bracket, inner text without brackets, closing bracket, digits. */
  lemma GroupMatchText(s: string, i: nat)
    requires GroupAt(s, i)
    ensures var g := GroupMatch(s, i);
      && g.inner != [] && (forall k :: 0 <= k < |g.inner| ==> !IsBracket(g.inner[k]))
      && (forall k :: 0 <= k < |g.digits| ==> IsDigit(g.digits[k]))
      && s[i..g.end] == [s[i]] + g.inner + [s[i + 1 + |g.inner|]] + g.digits
      && IsOpen(s[i]) && IsClose(s[i + 1 + |g.inner|])
  {
    var j := NextBracket(s, i + 1);
    var e := DigitEnd(s, j + 1);
    assert s[i..e] == [s[i]] + s[i + 1..j] + [s[j]] + s[j + 1..e];
  }

  /** `re.search` from position `k`: the leftmost match. */
  function Search(s: string, k: nat): (r: Option<Group>)
    ensures r.Some? ==> k <= r.value.start && GroupAt(s, r.value.start)
    ensures r.Some? ==> r.value == GroupMatch(s, r.value.start)
    ensures r.Some? ==> forall i :: k <= i < r.value.start ==> !GroupAt(s, i)
    ensures r.None? ==> forall i :: k <= i < |s| ==> !GroupAt(s, i)
    decreases |s| - k
  {
    if k >= |s| then None
    else if GroupAt(s, k) then Some(GroupMatch(s, k))
    else Search(s, k + 1)
  }

  /** What one element of a group becomes: its scaled count is written only when it exceeds 1. */
  function Emit(t: Token, mult: nat): string {
    if t.count * mult > 1 then t.symbol + NatToString(t.count * mult) else t.symbol
  }

  /** The text `expanded` that the inner loop builds from the tokens of a group. */
  function Expansion(ts: seq<Token>, mult: nat): string
    decreases |ts|
  {
    if ts == [] then [] else Expansion(ts[..|ts| - 1], mult) + Emit(ts[|ts| - 1], mult)
  }

  /** The formula with one group replaced by its expansion. */
  function Rewrite(s: string, g: Group): string
    requires g.start <= g.end <= |s|
  {
    s[..g.start] + Expansion(Tokens(g.inner), CountOf(g.digits)) + s[g.end..]
  }

  /** The number of bracket characters in `s`. */
  function Brackets(s: string): nat {
    if s == [] then 0 else (if IsBracket(s[0]) then 1 else 0) + Brackets(s[1..])
  }

  predicate HasOpen(s: string) {
    '(' in s || '[' in s
  }

  /** The result of the expansion loop: rewrite the leftmost group until none is left or no bracket opens. */
  function Expand(s: string): (r: string)
    ensures Search(r, 0).None?
    decreases Brackets(s)
  {
    if !HasOpen(s) then s
    else
      match Search(s, 0)
      case None => s
      case Some(g) =>
        RewriteDrops(s, g);
        Expand(Rewrite(s, g))
  }

  /** The outcome of the parser: the composition, or the `ValueError` for the first unknown symbol. */
  datatype Composition = Composition(counts: map<string, nat>) | UnknownElement(symbol: string)

  /** `composition[e]` of a `defaultdict(int)`. */
  function Get(m: map<string, nat>, e: string): nat {
    if e in m then m[e] else 0
  }

  /**
    The tally loop over the tokens, in order, against the set `known` of
    table symbols, stopping at the first unknown symbol.
  */
  function Tally(known: set<string>, ts: seq<Token>): (r: Composition)
    ensures r.Composition? ==> r.counts.Keys <= known
    decreases |ts|
  {
    if ts == [] then Composition(map[])
    else
      var prior := Tally(known, ts[..|ts| - 1]);
      var t := ts[|ts| - 1];
      if prior.UnknownElement? then prior
      else if t.symbol !in known then UnknownElement(t.symbol)
      else Composition(prior.counts[t.symbol := Get(prior.counts, t.symbol) + t.count])
  }

  /** What `parse_formula` computes, with `known` as the symbols of the table. */
  function ParseWith(known: set<string>, formula: string): Composition {
    Tally(known, Tokens(Expand(formula)))
  }

  function Parse(formula: string): Composition {
    ParseWith(ChemTable.Symbols, formula)
  }

  /** `parse_formula`: the expansion loop, then the tally loop. */
  method ParseFormula(formula: string) returns (r: Composition)
    ensures r == Parse(formula)
  {
    var f := ExpandBrackets(formula);
    r := TallyElements(ChemTable.Symbols, Tokens(f));
  }

  /** The `while` loop of `parse_formula`: rewrite the leftmost group until none is left. */
  method ExpandBrackets(formula: string) returns (f: string)
    ensures f == Expand(formula)
  {
    f := formula;
    while HasOpen(f)
      invariant Expand(f) == Expand(formula)
      decreases Brackets(f)
    {
      var found := Search(f, 0);
      if found.None? {
        break;
      }
      var m := found.value;
      var expanded := ExpandGroup(Tokens(m.inner), CountOf(m.digits));
      RewriteDrops(f, m);
      f := f[..m.start] + expanded + f[m.end..];
    }
  }

  /** The `for` loop over the elements of one group, building `expanded`. */
  method ExpandGroup(elements: seq<Token>, multiplier: nat) returns (expanded: string)
    ensures expanded == Expansion(elements, multiplier)
  {
    expanded := "";
    for k := 0 to |elements|
      invariant expanded == Expansion(elements[..k], multiplier)
    {
      var e := elements[k];
      ExpansionSnoc(elements, k, multiplier);
      if e.count * multiplier > 1 {
        expanded := expanded + (e.symbol + NatToString(e.count * multiplier));
      } else {
        expanded := expanded + e.symbol;
      }
    }
    assert elements[..|elements|] == elements;
  }

  /** One more element adds its emitted text at the end. */
  lemma ExpansionSnoc(elements: seq<Token>, k: nat, mult: nat)
    requires k < |elements|
    ensures Expansion(elements[..k + 1], mult) == Expansion(elements[..k], mult) + Emit(elements[k], mult)
  {
    assert elements[..k + 1][..k] == elements[..k];
  }

  /** The `for` loop over the element tokens, accumulating into `composition`. */
  method TallyElements(known: set<string>, tokens: seq<Token>) returns (r: Composition)
    ensures r == Tally(known, tokens)
  {
    var composition: map<string, nat> := map[];
    for k := 0 to |tokens|
      invariant Tally(known, tokens[..k]) == Composition(composition)
    {
      var t := tokens[k];
      assert tokens[..k + 1][..k] == tokens[..k];
      if t.symbol !in known {
        UnknownPersists(known, tokens, k + 1, |tokens|);
        assert tokens[..|tokens|] == tokens;
        return UnknownElement(t.symbol);
      }
      composition := composition[t.symbol := Get(composition, t.symbol) + t.count];
    }
    assert tokens[..|tokens|] == tokens;
    return Composition(composition);
  }

  /** Once the tally has met an unknown symbol, later tokens do not change its outcome. */
  lemma {:induction false} UnknownPersists(known: set<string>, ts: seq<Token>, k: nat, j: nat)
    requires k <= j <= |ts| && Tally(known, ts[..k]).UnknownElement?
    ensures Tally(known, ts[..j]) == Tally(known, ts[..k])
    decreases j - k
  {
    if k < j {
      assert ts[..k + 1][..k] == ts[..k];
      UnknownPersists(known, ts, k + 1, j);
    }
  }

  // ----- Bracket groups -----

  lemma {:induction false} BracketsAppend(a: string, b: string)
    ensures Brackets(a + b) == Brackets(a) + Brackets(b)
    decreases |a|
  {
    if a == [] {
      assert a + b == b;
    } else {
      assert (a + b)[1..] == a[1..] + b;
      BracketsAppend(a[1..], b);
    }
  }

  lemma {:induction false} NoBrackets(s: string)
    requires forall i :: 0 <= i < |s| ==> !IsBracket(s[i])
    ensures Brackets(s) == 0
    decreases |s|
  {
    if s != [] {
      NoBrackets(s[1..]);
    }
  }

  /** A group expands to letters and digits only, starting with a capital letter. */
  lemma {:induction false} ExpansionShape(ts: seq<Token>, mult: nat)
    requires forall i :: 0 <= i < |ts| ==> ChemTable.SymbolShape(ts[i].symbol)
    ensures forall i :: 0 <= i < |Expansion(ts, mult)| ==> !IsBracket(Expansion(ts, mult)[i])
    ensures Expansion(ts, mult) == [] || IsUpper(Expansion(ts, mult)[0])
    decreases |ts|
  {
    if ts != [] {
      var init := Expansion(ts[..|ts| - 1], mult);
      var e := Emit(ts[|ts| - 1], mult);
      ExpansionShape(ts[..|ts| - 1], mult);
      EmitShape(ts[|ts| - 1], mult);
      NoBracketAppend(init, e);
      assert Expansion(ts, mult) == init + e;
    }
  }

  /** An emitted element is letters and digits, starting with the capital of its symbol. */
  lemma EmitShape(t: Token, mult: nat)
    requires ChemTable.SymbolShape(t.symbol)
    ensures var e := Emit(t, mult); e != [] && IsUpper(e[0]) && forall i :: 0 <= i < |e| ==> !IsBracket(e[i])
  {
    var e := Emit(t, mult);
    assert e[0] == t.symbol[0];
    assert forall i :: 0 <= i < |e| ==> IsLetter(e[i]) || IsDigit(e[i]);
  }

  /** Text without brackets followed by a capitalised expansion has no brackets and starts capitalised. */
  lemma NoBracketAppend(a: string, b: string)
    requires forall i :: 0 <= i < |a| ==> !IsBracket(a[i])
    requires a == [] || IsUpper(a[0])
    requires b != [] && IsUpper(b[0]) && forall i :: 0 <= i < |b| ==> !IsBracket(b[i])
    ensures forall i :: 0 <= i < |a + b| ==> !IsBracket((a + b)[i])
    ensures IsUpper((a + b)[0])
  {
    forall i | 0 <= i < |a + b|
      ensures !IsBracket((a + b)[i])
    {
      if i >= |a| { assert (a + b)[i] == b[i - |a|]; }
    }
  }

  /** The text a group match covers holds exactly two brackets. */
  lemma GroupBrackets(s: string, g: Group)
    requires GroupAt(s, g.start) && g == GroupMatch(s, g.start)
    ensures Brackets(s[g.start..g.end]) == 2
  {
    var i := g.start;
    var c := i + 1 + |g.inner|;
    GroupMatchText(s, i);
    BracketsAppend([s[i]] + g.inner + [s[c]], g.digits);
    BracketsAppend([s[i]] + g.inner, [s[c]]);
    BracketsAppend([s[i]], g.inner);
    NoBrackets(g.inner);
    NoBrackets(g.digits);
  }

  lemma Brackets3(a: string, b: string, c: string)
    ensures Brackets(a + b + c) == Brackets(a) + Brackets(b) + Brackets(c)
  {
    BracketsAppend(a + b, c);
    BracketsAppend(a, b);
  }

  /**
    Each pass of the expansion loop removes exactly two brackets, the pair
    around the group it expands, so the loop ends.
  */
  lemma RewriteDrops(s: string, g: Group)
    requires GroupAt(s, g.start) && g == GroupMatch(s, g.start)
    ensures Brackets(Rewrite(s, g)) == Brackets(s) - 2
  {
    var x := Expansion(Tokens(g.inner), CountOf(g.digits));
    assert s == s[..g.start] + s[g.start..g.end] + s[g.end..];
    Brackets3(s[..g.start], s[g.start..g.end], s[g.end..]);
    GroupBrackets(s, g);
    ExpansionShape(Tokens(g.inner), CountOf(g.digits));
    NoBrackets(x);
    Brackets3(s[..g.start], x, s[g.end..]);
  }

  // ----- The tally -----

  /** The total count of element `e` over the tokens: the reference for the tally. */
  function Total(ts: seq<Token>, e: string): nat
    decreases |ts|
  {
    if ts == [] then 0
    else Total(ts[..|ts| - 1], e) + (if ts[|ts| - 1].symbol == e then ts[|ts| - 1].count else 0)
  }

  predicate Occurs(ts: seq<Token>, e: string) {
    exists i :: 0 <= i < |ts| && ts[i].symbol == e
  }

  lemma {:induction false} TotalAbsent(ts: seq<Token>, e: string)
    requires !Occurs(ts, e)
    ensures Total(ts, e) == 0
    decreases |ts|
  {
    if ts != [] {
      var init := ts[..|ts| - 1];
      assert !Occurs(init, e) by {
        forall i | 0 <= i < |init| ensures init[i].symbol != e { assert init[i] == ts[i]; }
      }
      TotalAbsent(init, e);
    }
  }

  /**
    A successful tally has a key for exactly the symbols that occur, and
    each key maps to the sum of the counts of its occurrences.
  */
  lemma {:induction false} TallyCounts(known: set<string>, ts: seq<Token>)
    requires Tally(known, ts).Composition?
    ensures forall e :: e in Tally(known, ts).counts <==> Occurs(ts, e)
    ensures forall e :: e in Tally(known, ts).counts ==> Tally(known, ts).counts[e] == Total(ts, e)
    decreases |ts|
  {
    if ts != [] {
      var init := ts[..|ts| - 1];
      var t := ts[|ts| - 1];
      TallyCounts(known, init);
      forall e ensures Occurs(ts, e) <==> Occurs(init, e) || t.symbol == e {
        OccursSnoc(ts, e);
      }
      if !Occurs(init, t.symbol) {
        TotalAbsent(init, t.symbol);
      }
    }
  }

  /** A symbol occurs in a token list exactly when it occurs before the last token or is the last one. */
  lemma OccursSnoc(ts: seq<Token>, e: string)
    requires ts != []
    ensures Occurs(ts, e) <==> Occurs(ts[..|ts| - 1], e) || ts[|ts| - 1].symbol == e
  {
    var init := ts[..|ts| - 1];
    if Occurs(ts, e) {
      var i :| 0 <= i < |ts| && ts[i].symbol == e;
      if i < |ts| - 1 { assert init[i] == ts[i]; }
    }
    if Occurs(init, e) {
      var i :| 0 <= i < |init| && init[i].symbol == e;
      assert ts[i] == init[i];
    }
  }

  /** The tally fails exactly when some token is not a table symbol, and it names the first such token. */
  lemma {:induction false} TallyUnknown(known: set<string>, ts: seq<Token>)
    ensures Tally(known, ts).UnknownElement? <==> exists i :: 0 <= i < |ts| && ts[i].symbol !in known
    ensures Tally(known, ts).UnknownElement? ==>
      exists i :: 0 <= i < |ts| && ts[i].symbol == Tally(known, ts).symbol && ts[i].symbol !in known
        && forall j :: 0 <= j < i ==> ts[j].symbol in known
    decreases |ts|
  {
    if ts != [] {
      var init := ts[..|ts| - 1];
      TallyUnknown(known, init);
      if Tally(known, init).UnknownElement? {
        var i :| 0 <= i < |init| && init[i].symbol == Tally(known, init).symbol && init[i].symbol !in known
          && forall j :: 0 <= j < i ==> init[j].symbol in known;
        assert ts[i] == init[i];
        forall j | 0 <= j < i ensures ts[j].symbol in known { assert ts[j] == init[j]; }
      } else {
        forall j | 0 <= j < |init| ensures ts[j].symbol in known { assert ts[j] == init[j]; }
      }
    }
  }

  // ----- A group multiplies the counts inside it -----

  /** What the tokens of one group element become once it is expanded and parsed again. */
  function Scale(t: Token, mult: nat): Token {
    Token(t.symbol, if t.count * mult > 1 then t.count * mult else 1)
  }

  function Scaled(ts: seq<Token>, mult: nat): (r: seq<Token>)
    ensures |r| == |ts| && forall i :: 0 <= i < |ts| ==> r[i] == Scale(ts[i], mult)
    decreases |ts|
  {
    if ts == [] then [] else Scaled(ts[..|ts| - 1], mult) + [Scale(ts[|ts| - 1], mult)]
  }

  lemma SliceAppend(a: string, b: string, i: nat, j: nat)
    requires i <= j <= |a|
    ensures (a + b)[i..j] == a[i..j] && (a + b)[j..] == a[j..] + b
  {
  }

  lemma DigitEndAppend(a: string, b: string, k: nat)
    requires k <= |a|
    requires b == [] || !IsDigit(b[0])
    ensures DigitEnd(a + b, k) == DigitEnd(a, k)
  {
    var s := a + b;
    var e := DigitEnd(a, k);
    forall i | k <= i < e ensures IsDigit(s[i]) { assert s[i] == a[i]; }
    if e < |a| { assert s[e] == a[e]; } else if b != [] { assert s[e] == b[0]; }
  }

  /** The first token of `a` is not extended by a following capital letter. */
  lemma FirstTokenAppend(a: string, b: string)
    requires a != [] && IsUpper(a[0])
    requires b == [] || IsUpper(b[0])
    ensures var k := SymbolLength(a); var e := DigitEnd(a, k);
      && SymbolLength(a + b) == k && DigitEnd(a + b, k) == e
      && (a + b)[..k] == a[..k] && (a + b)[k..e] == a[k..e] && (a + b)[e..] == a[e..] + b
  {
    var k := SymbolLength(a);
    assert SymbolLength(a + b) == k;
    DigitEndAppend(a, b, k);
    var e := DigitEnd(a, k);
    SliceAppend(a, b, 0, k);
    SliceAppend(a, b, k, e);
  }

  /** Tokens do not run across a capital letter, so the tokens of `a + b` are those of `a` and then of `b`. */
  lemma {:induction false} TokensAppend(a: string, b: string)
    requires b == [] || IsUpper(b[0])
    ensures Tokens(a + b) == Tokens(a) + Tokens(b)
    decreases |a|
  {
    if a == [] {
      assert a + b == b;
    } else if !IsUpper(a[0]) {
      assert (a + b)[1..] == a[1..] + b;
      TokensAppend(a[1..], b);
    } else {
      FirstTokenAppend(a, b);
      var e := DigitEnd(a, SymbolLength(a));
      TokensAppend(a[e..], b);
    }
  }

  /** A symbol written with a count of `n` reads back as that symbol with count `n`. */
  lemma TokensOfSymbolCount(sym: string, n: nat)
    requires ChemTable.SymbolShape(sym)
    ensures Tokens(sym + NatToString(n)) == [Token(sym, n)]
  {
    var digits := NatToString(n);
    var s := sym + digits;
    assert SymbolLength(s) == |sym|;
    forall i | |sym| <= i < |s| ensures IsDigit(s[i]) { assert s[i] == digits[i - |sym|]; }
    assert DigitEnd(s, |sym|) == |s|;
    assert s[|sym|..|s|] == digits;
    NatToStringValue(n);
    assert s[..|sym|] == sym;
    assert s[|s|..] == [];
  }

  lemma TokensOfSymbol(sym: string)
    requires ChemTable.SymbolShape(sym)
    ensures Tokens(sym) == [Token(sym, 1)]
  {
    assert DigitEnd(sym, |sym|) == |sym|;
    assert sym[..|sym|] == sym;
    assert sym[|sym|..] == [];
  }

  /**
    Expanding a group and reading it back multiplies each count inside the
    group by the multiplier; a product of at most 1 is written without digits
    and so reads back as 1.
  */
  lemma {:induction false} ExpansionTokens(ts: seq<Token>, mult: nat)
    requires forall i :: 0 <= i < |ts| ==> ChemTable.SymbolShape(ts[i].symbol)
    ensures Tokens(Expansion(ts, mult)) == Scaled(ts, mult)
    decreases |ts|
  {
    if ts != [] {
      var init := ts[..|ts| - 1];
      var t := ts[|ts| - 1];
      ExpansionTokens(init, mult);
      TokensAppend(Expansion(init, mult), Emit(t, mult));
      if t.count * mult > 1 {
        TokensOfSymbolCount(t.symbol, t.count * mult);
      } else {
        TokensOfSymbol(t.symbol);
      }
    }
  }

  // ----- Where expansion stops -----

  /** Without a complete group, the formula is tallied as it stands, even with a bracket left open. */
  lemma ExpandWithoutGroup(s: string)
    requires Search(s, 0).None?
    ensures Expand(s) == s
    ensures forall known :: ParseWith(known, s) == Tally(known, Tokens(s))
  {
  }

  /** Text without capital letters has no tokens, so it parses to the empty composition. */
  lemma {:induction false} TokensWithoutCapitals(s: string)
    requires forall i :: 0 <= i < |s| ==> !IsUpper(s[i])
    ensures Tokens(s) == []
    decreases |s|
  {
    if s != [] {
      TokensWithoutCapitals(s[1..]);
    }
  }

  lemma {:induction false} ExpandWithoutCapitals(s: string)
    requires forall i :: 0 <= i < |s| ==> !IsUpper(s[i])
    ensures forall i :: 0 <= i < |Expand(s)| ==> !IsUpper(Expand(s)[i])
    decreases Brackets(s)
  {
    if HasOpen(s) && Search(s, 0).Some? {
      var g := Search(s, 0).value;
      TokensWithoutCapitals(g.inner);
      var r := Rewrite(s, g);
      assert r == s[..g.start] + s[g.end..];
      forall i | 0 <= i < |r| ensures !IsUpper(r[i]) {
        if i < g.start { assert r[i] == s[i]; } else { assert r[i] == s[g.end + i - g.start]; }
      }
      RewriteDrops(s, g);
      ExpandWithoutCapitals(r);
    }
  }

  /** Every character that starts no token is skipped: a formula without capital letters gives `{}`. */
  lemma ParseWithoutCapitals(known: set<string>, s: string)
    requires forall i :: 0 <= i < |s| ==> !IsUpper(s[i])
    ensures ParseWith(known, s) == Composition(map[])
  {
    ExpandWithoutCapitals(s);
    TokensWithoutCapitals(Expand(s));
  }

  /** No group starts at a character that opens no bracket. */
  lemma SearchStep(s: string, k: nat)
    requires k < |s| && !IsOpen(s[k])
    ensures Search(s, k) == Search(s, k + 1)
  {
    assert !GroupAt(s, k);
  }

  /** The search passes over text that opens no bracket. */
  lemma {:induction false} SearchSkips(s: string, k: nat, i: nat)
    requires k <= i <= |s|
    requires forall j :: k <= j < i ==> !IsOpen(s[j])
    ensures Search(s, k) == Search(s, i)
    decreases i - k
  {
    if k < i {
      SearchSkips(s, k, i - 1);
      SearchStep(s, i - 1);
    }
  }

  /** A group at `i`: an opening bracket, text without brackets up to a closing bracket at `c`, and digits up to `e`. */
  lemma GroupMatchAt(s: string, i: nat, c: nat, e: nat)
    requires i + 1 < c < e <= |s| && IsOpen(s[i]) && IsClose(s[c])
    requires forall k :: i < k < c ==> !IsBracket(s[k])
    requires forall k :: c < k < e ==> IsDigit(s[k])
    requires e == |s| || !IsDigit(s[e])
    ensures GroupAt(s, i) && GroupMatch(s, i) == Group(i, s[i + 1..c], s[c + 1..e], e)
  {
    assert NextBracket(s, i + 1) == c;
    assert DigitEnd(s, c + 1) == e;
  }

  /** The leftmost group, when no bracket opens before it. */
  lemma SearchFinds(s: string, i: nat, c: nat, e: nat)
    requires i + 1 < c < e <= |s| && IsOpen(s[i]) && IsClose(s[c])
    requires forall k :: 0 <= k < i ==> !IsOpen(s[k])
    requires forall k :: i < k < c ==> !IsBracket(s[k])
    requires forall k :: c < k < e ==> IsDigit(s[k])
    requires e == |s| || !IsDigit(s[e])
    ensures Search(s, 0) == Some(Group(i, s[i + 1..c], s[c + 1..e], e))
  {
    SearchSkips(s, 0, i);
    GroupMatchAt(s, i, c, e);
  }

  /** One pass of the expansion loop, then the rest of the loop. */
  lemma ExpandStep(s: string, g: Group)
    requires Search(s, 0) == Some(g)
    ensures Expand(s) == Expand(Rewrite(s, g))
  {
    assert s[g.start] in s;
  }

  lemma ExpandDone(s: string)
    requires forall k :: 0 <= k < |s| ==> !IsOpen(s[k])
    ensures Expand(s) == s
  {
  }

  /** Without a closing bracket there is no group, so expansion leaves the formula as it is. */
  lemma NoGroupWithoutClose(s: string)
    requires forall k :: 0 <= k < |s| ==> !IsClose(s[k])
    ensures Search(s, 0).None? && Expand(s) == s
  {
    forall i | 0 <= i < |s| - 1
      ensures !GroupAt(s, i)
    {
      var j := NextBracket(s, i + 1);
      assert j < |s| ==> !IsClose(s[j]);
    }
  }
}
