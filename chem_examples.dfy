/**
  Worked examples of `parse_formula`, including the ones its docstring
  gives and the edge behaviour of counts of 0 and of unmatched brackets.
  Each literal fact is stated in a small lemma of its own, and the
  examples are chained from them.
*/
module ChemExamples {
  import opened Ascii
  import opened Wrappers
  import opened ChemFormula
  import ChemTable

  lemma Digits()
    ensures NatToString(0) == "0" && NatToString(2) == "2" && NatToString(3) == "3"
    ensures NatToString(4) == "4" && NatToString(12) == "12"
  {
  }

  lemma TokensOH()
    ensures Tokens("OH") == [Token("O", 1), Token("H", 1)]
  {
    TokensOfSymbol("O");
    TokensOfSymbol("H");
    TokensAppend("O", "H");
    assert "O" + "H" == "OH";
  }

  lemma TokensO2H2()
    ensures Tokens("O2H2") == [Token("O", 2), Token("H", 2)]
  {
    Digits();
    TokensOfSymbolCount("O", 2);
    TokensOfSymbolCount("H", 2);
    assert "O" + NatToString(2) == "O2" && "H" + NatToString(2) == "H2";
    TokensAppend("O2", "H2");
    assert "O2" + "H2" == "O2H2";
  }

  lemma TokensCaO2H2()
    ensures Tokens("CaO2H2") == [Token("Ca", 1), Token("O", 2), Token("H", 2)]
  {
    TokensO2H2();
    TokensOfSymbol("Ca");
    TokensAppend("Ca", "O2H2");
    JoinCaO2H2();
  }

  lemma JoinCaO2H2()
    ensures "Ca" + "O2H2" == "CaO2H2"
  {
    var s := "Ca" + "O2H2";
    assert s[0] == 'C' && s[1] == 'a' && s[2] == 'O' && s[3] == '2' && s[4] == 'H' && s[5] == '2';
  }

  lemma SearchCaOH2()
    ensures Search("Ca(OH)2", 0) == Some(Group(2, "OH", "2", 7))
  {
    var s := "Ca(OH)2";
    SearchFinds(s, 2, 5, 7);
    assert s[3..5] == "OH" && s[6..7] == "2";
  }

  lemma ExpansionOH2()
    ensures Expansion([Token("O", 1), Token("H", 1)], 2) == "O2H2"
  {
    Digits();
    var ts := [Token("O", 1), Token("H", 1)];
    assert ts[..1] == [Token("O", 1)];
    assert ts[..1][..0] == [];
  }

  lemma RewriteCaOH2()
    ensures Rewrite("Ca(OH)2", Group(2, "OH", "2", 7)) == "CaO2H2"
  {
    TokensOH();
    ExpansionOH2();
    var s := "Ca(OH)2";
    assert s[..2] == "Ca" && s[7..] == [];
  }

  lemma NoOpenCaO2H2()
    ensures forall k :: 0 <= k < |"CaO2H2"| ==> !IsOpen("CaO2H2"[k])
  {
  }

  lemma ExpandCaOH2()
    ensures Expand("Ca(OH)2") == "CaO2H2"
  {
    SearchCaOH2();
    RewriteCaOH2();
    ExpandStep("Ca(OH)2", Group(2, "OH", "2", 7));
    NoOpenCaO2H2();
    ExpandDone("CaO2H2");
  }

  lemma TallyCaO2H2(known: set<string>)
    requires "Ca" in known && "O" in known && "H" in known
    ensures Tally(known, [Token("Ca", 1), Token("O", 2), Token("H", 2)])
      == Composition(map["Ca" := 1, "O" := 2, "H" := 2])
  {
    var ts := [Token("Ca", 1), Token("O", 2), Token("H", 2)];
    assert ts[..2] == [Token("Ca", 1), Token("O", 2)];
    assert ts[..2][..1] == [Token("Ca", 1)];
    assert ts[..2][..1][..0] == [];
    assert Tally(known, ts[..1]) == Composition(map["Ca" := 1]);
    assert "O" != "Ca" && "H" != "Ca" && "H" != "O";
    assert Tally(known, ts[..2]) == Composition(map["Ca" := 1, "O" := 2]);
  }

  /** `parse_formula("Ca(OH)2")` is `{Ca: 1, O: 2, H: 2}`. */
  lemma CalciumHydroxide()
    ensures Parse("Ca(OH)2") == Composition(map["Ca" := 1, "O" := 2, "H" := 2])
  {
    ExpandCaOH2();
    TokensCaO2H2();
    ChemTable.SymbolExamples();
    TallyCaO2H2(ChemTable.Symbols);
  }

  // ----- Fe2(SO4)3 -----

  lemma SearchFe2SO43()
    ensures Search("Fe2(SO4)3", 0) == Some(Group(3, "SO4", "3", 9))
  {
    var s := "Fe2(SO4)3";
    SearchFinds(s, 3, 7, 9);
    assert s[4..7] == "SO4" && s[8..9] == "3";
  }

  lemma TokensSO4()
    ensures Tokens("SO4") == [Token("S", 1), Token("O", 4)]
  {
    Digits();
    TokensOfSymbol("S");
    TokensOfSymbolCount("O", 4);
    assert "O" + NatToString(4) == "O4";
    TokensAppend("S", "O4");
    assert "S" + "O4" == "SO4";
  }

  lemma ExpansionSO43()
    ensures Expansion([Token("S", 1), Token("O", 4)], 3) == "S3O12"
  {
    Digits();
    var ts := [Token("S", 1), Token("O", 4)];
    assert ts[..1] == [Token("S", 1)];
    assert ts[..1][..0] == [];
  }

  lemma CountOfDigit3()
    ensures CountOf("3") == 3
  {
  }

  lemma RewriteFe2SO43()
    ensures Rewrite("Fe2(SO4)3", Group(3, "SO4", "3", 9)) == "Fe2S3O12"
  {
    var s := "Fe2(SO4)3";
    var e := Expansion(Tokens("SO4"), CountOf("3"));
    assert e == "S3O12" by {
      CountOfDigit3();
      TokensSO4();
      ExpansionSO43();
    }
    assert s[..3] == "Fe2" && s[9..] == [];
    assert Rewrite(s, Group(3, "SO4", "3", 9)) == "Fe2" + "S3O12" + [];
    JoinFe2S3O12();
  }

  lemma NoOpenFe2S3O12()
    ensures forall k :: 0 <= k < |"Fe2S3O12"| ==> !IsOpen("Fe2S3O12"[k])
  {
  }

  lemma ExpandFe2SO43()
    ensures Expand("Fe2(SO4)3") == "Fe2S3O12"
  {
    SearchFe2SO43();
    RewriteFe2SO43();
    ExpandStep("Fe2(SO4)3", Group(3, "SO4", "3", 9));
    NoOpenFe2S3O12();
    ExpandDone("Fe2S3O12");
  }

  lemma JoinS3O12()
    ensures "S3" + "O12" == "S3O12"
  {
    var s := "S3" + "O12";
    assert s[0] == 'S' && s[1] == '3' && s[2] == 'O' && s[3] == '1' && s[4] == '2';
  }

  lemma TokensS3O12()
    ensures Tokens("S3O12") == [Token("S", 3), Token("O", 12)]
  {
    Digits();
    TokensOfSymbolCount("S", 3);
    TokensOfSymbolCount("O", 12);
    assert "S" + NatToString(3) == "S3" && "O" + NatToString(12) == "O12";
    TokensAppend("S3", "O12");
    JoinS3O12();
  }

  lemma TokensFe2S3O12()
    ensures Tokens("Fe2S3O12") == [Token("Fe", 2), Token("S", 3), Token("O", 12)]
  {
    Digits();
    TokensS3O12();
    TokensOfSymbolCount("Fe", 2);
    assert "Fe" + NatToString(2) == "Fe2";
    TokensAppend("Fe2", "S3O12");
    JoinFe2S3O12();
  }

  lemma JoinFe2S3O12()
    ensures "Fe2" + "S3O12" == "Fe2S3O12"
  {
    var s := "Fe2" + "S3O12";
    assert s[0] == 'F' && s[1] == 'e' && s[2] == '2' && s[3] == 'S';
    assert s[4] == '3' && s[5] == 'O' && s[6] == '1' && s[7] == '2';
  }

  lemma TallyFe2S3O12(known: set<string>)
    requires "Fe" in known && "S" in known && "O" in known
    ensures Tally(known, [Token("Fe", 2), Token("S", 3), Token("O", 12)])
      == Composition(map["Fe" := 2, "S" := 3, "O" := 12])
  {
    var ts := [Token("Fe", 2), Token("S", 3), Token("O", 12)];
    assert ts[..2] == [Token("Fe", 2), Token("S", 3)];
    assert ts[..2][..1] == [Token("Fe", 2)];
    assert ts[..2][..1][..0] == [];
    assert Tally(known, ts[..1]) == Composition(map["Fe" := 2]);
    assert "S" != "Fe" && "O" != "Fe" && "O" != "S";
    assert Tally(known, ts[..2]) == Composition(map["Fe" := 2, "S" := 3]);
  }

  /** `parse_formula("Fe2(SO4)3")` is `{Fe: 2, S: 3, O: 12}`. */
  lemma IronSulfate()
    ensures Parse("Fe2(SO4)3") == Composition(map["Fe" := 2, "S" := 3, "O" := 12])
  {
    ExpandFe2SO43();
    TokensFe2S3O12();
    ChemTable.SymbolExamples();
    TallyFe2S3O12(ChemTable.Symbols);
  }

  // ----- CH3CH3: repeated elements are summed -----

  lemma TokensCH3()
    ensures Tokens("CH3") == [Token("C", 1), Token("H", 3)]
  {
    Digits();
    TokensOfSymbol("C");
    TokensOfSymbolCount("H", 3);
    assert "H" + NatToString(3) == "H3";
    TokensAppend("C", "H3");
    assert "C" + "H3" == "CH3";
  }

  lemma TokensCH3CH3()
    ensures Tokens("CH3CH3") == [Token("C", 1), Token("H", 3), Token("C", 1), Token("H", 3)]
  {
    JoinCH3CH3();
    TokensCH3();
    TokensAppend("CH3", "CH3");
  }

  lemma JoinCH3CH3()
    ensures "CH3" + "CH3" == "CH3CH3"
  {
    var s := "CH3" + "CH3";
    assert s[0] == 'C' && s[1] == 'H' && s[2] == '3' && s[3] == 'C' && s[4] == 'H' && s[5] == '3';
  }

  lemma TallyCH3CH3(known: set<string>)
    requires "C" in known && "H" in known
    ensures Tally(known, [Token("C", 1), Token("H", 3), Token("C", 1), Token("H", 3)])
      == Composition(map["C" := 2, "H" := 6])
  {
    var ts := [Token("C", 1), Token("H", 3), Token("C", 1), Token("H", 3)];
    assert ts[..3] == [Token("C", 1), Token("H", 3), Token("C", 1)];
    assert ts[..3][..2] == [Token("C", 1), Token("H", 3)];
    assert ts[..3][..2][..1] == [Token("C", 1)];
    assert ts[..3][..2][..1][..0] == [];
    assert "H" != "C";
    assert Tally(known, ts[..1]) == Composition(map["C" := 1]);
    var m2 := map["C" := 1, "H" := 3];
    assert Tally(known, ts[..2]) == Composition(m2);
    assert Get(m2, "C") == 1;
    var m3 := m2["C" := 2];
    assert m3 == map["C" := 2, "H" := 3];
    assert ts[..3][..2] == ts[..2] && ts[..3][2] == Token("C", 1);
    assert Tally(known, ts[..3]) == Composition(m3);
    assert Get(m3, "H") == 3;
    assert m3["H" := 6] == map["C" := 2, "H" := 6];
  }

  lemma NoOpenCH3CH3()
    ensures forall k :: 0 <= k < |"CH3CH3"| ==> !IsOpen("CH3CH3"[k])
  {
  }

  /** `parse_formula("CH3CH3")` is `{C: 2, H: 6}`. */
  lemma Ethane()
    ensures Parse("CH3CH3") == Composition(map["C" := 2, "H" := 6])
  {
    NoOpenCH3CH3();
    ExpandDone("CH3CH3");
    TokensCH3CH3();
    ChemTable.SymbolExamples();
    TallyCH3CH3(ChemTable.Symbols);
  }

  // ----- Counts of 0 -----

  lemma TokensH0()
    ensures Tokens("H0") == [Token("H", 0)]
  {
    Digits();
    TokensOfSymbolCount("H", 0);
    assert "H" + NatToString(0) == "H0";
  }

  lemma SearchH0Group()
    ensures Search("(H0)", 0) == Some(Group(0, "H0", "", 4))
  {
    var s := "(H0)";
    SearchFinds(s, 0, 3, 4);
    assert s[1..3] == "H0" && s[4..4] == "";
  }

  lemma RewriteH0Group()
    ensures Rewrite("(H0)", Group(0, "H0", "", 4)) == "H"
  {
    TokensH0();
    assert Expansion([Token("H", 0)], 1) == "H";
    assert "(H0)"[..0] == "" && "(H0)"[4..] == "";
  }

  lemma ExpandH0Group()
    ensures Expand("(H0)") == "H"
  {
    SearchH0Group();
    RewriteH0Group();
    ExpandStep("(H0)", Group(0, "H0", "", 4));
    ExpandDone("H");
  }

  /** Inside a group a scaled count of 0 is written without digits, so `parse_formula("(H0)")` is `{H: 1}`. */
  lemma ZeroInsideGroup()
    ensures Parse("(H0)") == Composition(map["H" := 1])
  {
    ExpandH0Group();
    TokensOfSymbol("H");
    ChemTable.SymbolExamples();
    assert [Token("H", 1)][..0] == [];
  }

  lemma SearchOHGroupZero()
    ensures Search("(OH)0", 0) == Some(Group(0, "OH", "0", 5))
  {
    var s := "(OH)0";
    SearchFinds(s, 0, 3, 5);
    assert s[1..3] == "OH" && s[4..5] == "0";
  }

  lemma ExpansionOH0()
    ensures Expansion([Token("O", 1), Token("H", 1)], 0) == "OH"
  {
    var ts := [Token("O", 1), Token("H", 1)];
    assert ts[..1] == [Token("O", 1)] && ts[..1][..0] == [];
  }

  lemma RewriteOHGroupZero()
    ensures Rewrite("(OH)0", Group(0, "OH", "0", 5)) == "OH"
  {
    TokensOH();
    assert CountOf("0") == 0;
    ExpansionOH0();
    assert "(OH)0"[..0] == "" && "(OH)0"[5..] == "";
  }

  lemma ExpandOHGroupZero()
    ensures Expand("(OH)0") == "OH"
  {
    SearchOHGroupZero();
    RewriteOHGroupZero();
    ExpandStep("(OH)0", Group(0, "OH", "0", 5));
    ExpandDone("OH");
  }

  lemma TallyOH(known: set<string>)
    requires "O" in known && "H" in known
    ensures Tally(known, [Token("O", 1), Token("H", 1)]) == Composition(map["O" := 1, "H" := 1])
  {
    var ts := [Token("O", 1), Token("H", 1)];
    assert ts[..1] == [Token("O", 1)] && ts[..1][..0] == [];
    assert "H" != "O";
  }

  /** A multiplier of 0 also gives counts of 1: `parse_formula("(OH)0")` is `{O: 1, H: 1}`. */
  lemma ZeroMultiplier()
    ensures Parse("(OH)0") == Composition(map["O" := 1, "H" := 1])
  {
    ExpandOHGroupZero();
    TokensOH();
    ChemTable.SymbolExamples();
    TallyOH(ChemTable.Symbols);
  }

  /** Outside a group a count of 0 stands: `parse_formula("H0")` is `{H: 0}`. */
  lemma ZeroOutsideGroup()
    ensures Parse("H0") == Composition(map["H" := 0])
  {
    ExpandDone("H0");
    TokensH0();
    ChemTable.SymbolExamples();
    assert [Token("H", 0)][..0] == [];
  }

  // ----- Brackets -----

  lemma SearchMixedBrackets()
    ensures Search("[OH)2", 0) == Some(Group(0, "OH", "2", 5))
  {
    var s := "[OH)2";
    SearchFinds(s, 0, 3, 5);
    assert s[1..3] == "OH" && s[4..5] == "2";
  }

  lemma RewriteMixedBrackets()
    ensures Rewrite("[OH)2", Group(0, "OH", "2", 5)) == "O2H2"
  {
    TokensOH();
    ExpansionOH2();
    assert "[OH)2"[..0] == "" && "[OH)2"[5..] == "";
  }

  lemma NoOpenO2H2()
    ensures forall k :: 0 <= k < |"O2H2"| ==> !IsOpen("O2H2"[k])
  {
  }

  lemma ExpandMixedBrackets()
    ensures Expand("[OH)2") == "O2H2"
  {
    SearchMixedBrackets();
    RewriteMixedBrackets();
    ExpandStep("[OH)2", Group(0, "OH", "2", 5));
    NoOpenO2H2();
    ExpandDone("O2H2");
  }

  lemma TallyO2H2(known: set<string>)
    requires "O" in known && "H" in known
    ensures Tally(known, [Token("O", 2), Token("H", 2)]) == Composition(map["O" := 2, "H" := 2])
  {
    var ts := [Token("O", 2), Token("H", 2)];
    assert ts[..1] == [Token("O", 2)] && ts[..1][..0] == [];
    assert "H" != "O";
  }

  /** An opening `[` may be closed by `)`: `parse_formula("[OH)2")` is `{O: 2, H: 2}`. */
  lemma MixedBrackets()
    ensures Parse("[OH)2") == Composition(map["O" := 2, "H" := 2])
  {
    ExpandMixedBrackets();
    TokensO2H2();
    ChemTable.SymbolExamples();
    TallyO2H2(ChemTable.Symbols);
  }

  lemma TokensCaOpenOH()
    ensures Tokens("Ca(OH") == [Token("Ca", 1), Token("O", 1), Token("H", 1)]
  {
    var s := "Ca(OH";
    assert Tokens(s) == [Token("Ca", 1)] + Tokens("(OH") by {
      assert SymbolLength(s) == 2 && DigitEnd(s, 2) == 2;
      assert s[..2] == "Ca" && s[2..2] == "" && s[2..] == "(OH";
    }
    assert Tokens("(OH") == Tokens("OH") by {
      assert "(OH"[1..] == "OH";
    }
    TokensOH();
  }

  lemma NoCloseCaOpenOH()
    ensures forall k :: 0 <= k < |"Ca(OH"| ==> !IsClose("Ca(OH"[k])
  {
  }

  lemma TallyCaOH(known: set<string>)
    requires "Ca" in known && "O" in known && "H" in known
    ensures Tally(known, [Token("Ca", 1), Token("O", 1), Token("H", 1)])
      == Composition(map["Ca" := 1, "O" := 1, "H" := 1])
  {
    var ts := [Token("Ca", 1), Token("O", 1), Token("H", 1)];
    assert ts[..2] == [Token("Ca", 1), Token("O", 1)];
    assert ts[..2][..1] == [Token("Ca", 1)];
    assert ts[..2][..1][..0] == [];
    assert Tally(known, ts[..1]) == Composition(map["Ca" := 1]);
    assert "O" != "Ca" && "H" != "Ca" && "H" != "O";
    assert Tally(known, ts[..2]) == Composition(map["Ca" := 1, "O" := 1]);
  }

  /** An unclosed bracket stops expansion without an error; the bracket itself is skipped. */
  lemma UnclosedBracket()
    ensures Parse("Ca(OH") == Composition(map["Ca" := 1, "O" := 1, "H" := 1])
  {
    NoCloseCaOpenOH();
    NoGroupWithoutClose("Ca(OH");
    TokensCaOpenOH();
    ChemTable.SymbolExamples();
    TallyCaOH(ChemTable.Symbols);
  }
}
