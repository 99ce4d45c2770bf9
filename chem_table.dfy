/**
  The periodic table of the chemistry toolkit and its element lookup.

  Each entry keeps the symbol, the atomic number and the name; the atomic
  weight, group and phase of the original table are not modelled.
*/
module ChemTable {
  import opened Ascii
  import opened Wrappers

  datatype Element = Element(symbol: string, number: nat, name: string)

  /**
    The 118 elements in the order of the table, which is atomic-number order.
    The literal is written in blocks of ten entries.
  */
  const Table: seq<Element> :=
    Numbers1To10 + Numbers11To20 + Numbers21To30 + Numbers31To40 + Numbers41To50 + Numbers51To60
    + Numbers61To70 + Numbers71To80 + Numbers81To90 + Numbers91To100 + Numbers101To110 + Numbers111To118

  const Numbers1To10: seq<Element> := [
    Element("H", 1, "Hydrogen"), Element("He", 2, "Helium"), Element("Li", 3, "Lithium"),
    Element("Be", 4, "Beryllium"), Element("B", 5, "Boron"), Element("C", 6, "Carbon"),
    Element("N", 7, "Nitrogen"), Element("O", 8, "Oxygen"), Element("F", 9, "Fluorine"),
    Element("Ne", 10, "Neon")
  ]
  const Numbers11To20: seq<Element> := [
    Element("Na", 11, "Sodium"), Element("Mg", 12, "Magnesium"), Element("Al", 13, "Aluminum"),
    Element("Si", 14, "Silicon"), Element("P", 15, "Phosphorus"), Element("S", 16, "Sulfur"),
    Element("Cl", 17, "Chlorine"), Element("Ar", 18, "Argon"), Element("K", 19, "Potassium"),
    Element("Ca", 20, "Calcium")
  ]
  const Numbers21To30: seq<Element> := [
    Element("Sc", 21, "Scandium"), Element("Ti", 22, "Titanium"), Element("V", 23, "Vanadium"),
    Element("Cr", 24, "Chromium"), Element("Mn", 25, "Manganese"), Element("Fe", 26, "Iron"),
    Element("Co", 27, "Cobalt"), Element("Ni", 28, "Nickel"), Element("Cu", 29, "Copper"),
    Element("Zn", 30, "Zinc")
  ]
  const Numbers31To40: seq<Element> := [
    Element("Ga", 31, "Gallium"), Element("Ge", 32, "Germanium"), Element("As", 33, "Arsenic"),
    Element("Se", 34, "Selenium"), Element("Br", 35, "Bromine"), Element("Kr", 36, "Krypton"),
    Element("Rb", 37, "Rubidium"), Element("Sr", 38, "Strontium"), Element("Y", 39, "Yttrium"),
    Element("Zr", 40, "Zirconium")
  ]
  const Numbers41To50: seq<Element> := [
    Element("Nb", 41, "Niobium"), Element("Mo", 42, "Molybdenum"), Element("Tc", 43, "Technetium"),
    Element("Ru", 44, "Ruthenium"), Element("Rh", 45, "Rhodium"), Element("Pd", 46, "Palladium"),
    Element("Ag", 47, "Silver"), Element("Cd", 48, "Cadmium"), Element("In", 49, "Indium"),
    Element("Sn", 50, "Tin")
  ]
  const Numbers51To60: seq<Element> := [
    Element("Sb", 51, "Antimony"), Element("Te", 52, "Tellurium"), Element("I", 53, "Iodine"),
    Element("Xe", 54, "Xenon"), Element("Cs", 55, "Cesium"), Element("Ba", 56, "Barium"),
    Element("La", 57, "Lanthanum"), Element("Ce", 58, "Cerium"), Element("Pr", 59, "Praseodymium"),
    Element("Nd", 60, "Neodymium")
  ]
  const Numbers61To70: seq<Element> := [
    Element("Pm", 61, "Promethium"), Element("Sm", 62, "Samarium"), Element("Eu", 63, "Europium"),
    Element("Gd", 64, "Gadolinium"), Element("Tb", 65, "Terbium"), Element("Dy", 66, "Dysprosium"),
    Element("Ho", 67, "Holmium"), Element("Er", 68, "Erbium"), Element("Tm", 69, "Thulium"),
    Element("Yb", 70, "Ytterbium")
  ]
  const Numbers71To80: seq<Element> := [
    Element("Lu", 71, "Lutetium"), Element("Hf", 72, "Hafnium"), Element("Ta", 73, "Tantalum"),
    Element("W", 74, "Tungsten"), Element("Re", 75, "Rhenium"), Element("Os", 76, "Osmium"),
    Element("Ir", 77, "Iridium"), Element("Pt", 78, "Platinum"), Element("Au", 79, "Gold"),
    Element("Hg", 80, "Mercury")
  ]
  const Numbers81To90: seq<Element> := [
    Element("Tl", 81, "Thallium"), Element("Pb", 82, "Lead"), Element("Bi", 83, "Bismuth"),
    Element("Po", 84, "Polonium"), Element("At", 85, "Astatine"), Element("Rn", 86, "Radon"),
    Element("Fr", 87, "Francium"), Element("Ra", 88, "Radium"), Element("Ac", 89, "Actinium"),
    Element("Th", 90, "Thorium")
  ]
  const Numbers91To100: seq<Element> := [
    Element("Pa", 91, "Protactinium"), Element("U", 92, "Uranium"), Element("Np", 93, "Neptunium"),
    Element("Pu", 94, "Plutonium"), Element("Am", 95, "Americium"), Element("Cm", 96, "Curium"),
    Element("Bk", 97, "Berkelium"), Element("Cf", 98, "Californium"),
    Element("Es", 99, "Einsteinium"), Element("Fm", 100, "Fermium")
  ]
  const Numbers101To110: seq<Element> := [
    Element("Md", 101, "Mendelevium"), Element("No", 102, "Nobelium"),
    Element("Lr", 103, "Lawrencium"), Element("Rf", 104, "Rutherfordium"),
    Element("Db", 105, "Dubnium"), Element("Sg", 106, "Seaborgium"), Element("Bh", 107, "Bohrium"),
    Element("Hs", 108, "Hassium"), Element("Mt", 109, "Meitnerium"),
    Element("Ds", 110, "Darmstadtium")
  ]
  const Numbers111To118: seq<Element> := [
    Element("Rg", 111, "Roentgenium"), Element("Cn", 112, "Copernicium"),
    Element("Nh", 113, "Nihonium"), Element("Fl", 114, "Flerovium"),
    Element("Mc", 115, "Moscovium"), Element("Lv", 116, "Livermorium"),
    Element("Ts", 117, "Tennessine"), Element("Og", 118, "Oganesson")
  ]

  /** The keys of `PERIODIC_TABLE`. */
  const Symbols: set<string> := set i | 0 <= i < |Table| :: Table[i].symbol

  /** The three ways `element_info` can match an entry. */
  datatype Key = BySymbol(symbol: string) | ByNumber(number: nat) | ByName(lowered: string)

  predicate Matches(e: Element, key: Key) {
    match key
    case BySymbol(s) => e.symbol == s
    case ByNumber(n) => e.number == n
    case ByName(l) => Lower(e.name) == l
  }

  predicate Listed(t: seq<Element>, key: Key) {
    exists i :: 0 <= i < |t| && Matches(t[i], key)
  }

  /** The first position at or after `from` whose entry of `t` matches `key`. */
  function Find(t: seq<Element>, key: Key, from: nat): (r: Option<nat>)
    ensures r.Some? ==> from <= r.value < |t| && Matches(t[r.value], key)
    ensures r.Some? ==> forall j :: from <= j < r.value ==> !Matches(t[j], key)
    ensures r.None? ==> forall j :: from <= j < |t| ==> !Matches(t[j], key)
    decreases |t| - from
  {
    if from >= |t| then None
    else if Matches(t[from], key) then Some(from)
    else Find(t, key, from + 1)
  }

  /** The search finds an entry exactly when some entry matches. */
  lemma FindListed(t: seq<Element>, key: Key)
    ensures Find(t, key, 0).Some? <==> Listed(t, key)
  {
  }

  /**
    The lookup of `element_info` in a table `t`: after stripping, the entry
    with that symbol; failing that, for a query of digits only, the first
    entry with that atomic number; failing that, the first entry whose
    lower-cased name equals the lower-cased query; otherwise nothing.
  */
  function Lookup(t: seq<Element>, query: string): Option<Element> {
    var q := Strip(query);
    var bySymbol := Find(t, BySymbol(q), 0);
    var byNumber := if IsDigits(q) then Find(t, ByNumber(DigitsValue(q)), 0) else None;
    var byName := Find(t, ByName(Lower(q)), 0);
    if bySymbol.Some? then Some(t[bySymbol.value])
    else if byNumber.Some? then Some(t[byNumber.value])
    else if byName.Some? then Some(t[byName.value])
    else None
  }

  function Info(query: string): Option<Element> {
    Lookup(Table, query)
  }

  /** `element_info` over a table: a symbol lookup, then two searches in table order. */
  method Search(t: seq<Element>, query: string) returns (r: Option<Element>)
    ensures r == Lookup(t, query)
  {
    var q := Strip(query);
    var bySymbol := Find(t, BySymbol(q), 0);
    if bySymbol.Some? {
      return Some(t[bySymbol.value]);
    }
    if IsDigits(q) {
      var number := DigitsValue(q);
      for i := 0 to |t|
        invariant Find(t, ByNumber(number), 0) == Find(t, ByNumber(number), i)
      {
        if t[i].number == number {
          return Some(t[i]);
        }
      }
    }
    var lowered := Lower(q);
    for i := 0 to |t|
      invariant Find(t, ByName(lowered), 0) == Find(t, ByName(lowered), i)
    {
      if Lower(t[i].name) == lowered {
        return Some(t[i]);
      }
    }
    return None;
  }

  /** `element_info(query)` on the periodic table. */
  method ElementInfo(query: string) returns (r: Option<Element>)
    ensures r == Info(query)
  {
    r := Search(Table, query);
  }

  /** An entry with the stripped query as its symbol is the answer. */
  lemma LookupBySymbol(t: seq<Element>, query: string)
    requires Listed(t, BySymbol(Strip(query)))
    ensures var r := Lookup(t, query); r.Some? && r.value in t && r.value.symbol == Strip(query)
  {
    FindListed(t, BySymbol(Strip(query)));
  }

  /** Failing a symbol, a query of digits finds the entry with that atomic number. */
  lemma LookupByNumber(t: seq<Element>, query: string)
    requires !Listed(t, BySymbol(Strip(query)))
    requires IsDigits(Strip(query)) && Listed(t, ByNumber(DigitsValue(Strip(query))))
    ensures var r := Lookup(t, query);
      r.Some? && r.value in t && r.value.number == DigitsValue(Strip(query))
  {
    FindListed(t, BySymbol(Strip(query)));
    FindListed(t, ByNumber(DigitsValue(Strip(query))));
  }

  /** Failing both, the name is compared case-insensitively. */
  lemma LookupByName(t: seq<Element>, query: string)
    requires !Listed(t, BySymbol(Strip(query)))
    requires !(IsDigits(Strip(query)) && Listed(t, ByNumber(DigitsValue(Strip(query)))))
    requires Listed(t, ByName(Lower(Strip(query))))
    ensures var r := Lookup(t, query);
      r.Some? && r.value in t && Lower(r.value.name) == Lower(Strip(query))
  {
    FindListed(t, BySymbol(Strip(query)));
    FindListed(t, ByNumber(DigitsValue(Strip(query))));
    FindListed(t, ByName(Lower(Strip(query))));
  }

  /** `element_info` returns None exactly when no tier finds an entry. */
  lemma LookupNone(t: seq<Element>, query: string)
    ensures var q := Strip(query);
      Lookup(t, query).None? <==>
        && !Listed(t, BySymbol(q))
        && !(IsDigits(q) && Listed(t, ByNumber(DigitsValue(q))))
        && !Listed(t, ByName(Lower(q)))
  {
    FindListed(t, BySymbol(Strip(query)));
    FindListed(t, ByNumber(DigitsValue(Strip(query))));
    FindListed(t, ByName(Lower(Strip(query))));
  }

  /** A symbol has the shape `[A-Z][a-z]?`. */
  predicate SymbolShape(s: string) {
    (|s| == 1 || |s| == 2) && IsUpper(s[0]) && (|s| == 2 ==> IsLower(s[1]))
  }

  /** Entries numbered consecutively after `base`, with well-shaped symbols. */
  predicate WellFormedFrom(block: seq<Element>, base: nat) {
    forall i :: 0 <= i < |block| ==>
      block[i].number == base + i + 1 && SymbolShape(block[i].symbol)
  }

  lemma WellFormedAppend(a: seq<Element>, b: seq<Element>, base: nat)
    requires WellFormedFrom(a, base) && WellFormedFrom(b, base + |a|)
    ensures WellFormedFrom(a + b, base)
  {
    forall i | 0 <= i < |a + b|
      ensures (a + b)[i].number == base + i + 1
    {
      if i >= |a| { assert (a + b)[i] == b[i - |a|]; }
    }
  }

  lemma Numbers1To10WellFormed()
    ensures WellFormedFrom(Numbers1To10, 0)
  {
  }

  lemma Numbers11To20WellFormed()
    ensures WellFormedFrom(Numbers11To20, 10)
  {
  }

  lemma Numbers21To30WellFormed()
    ensures WellFormedFrom(Numbers21To30, 20)
  {
  }

  lemma Numbers31To40WellFormed()
    ensures WellFormedFrom(Numbers31To40, 30)
  {
  }

  lemma Numbers41To50WellFormed()
    ensures WellFormedFrom(Numbers41To50, 40)
  {
  }

  lemma Numbers51To60WellFormed()
    ensures WellFormedFrom(Numbers51To60, 50)
  {
  }

  lemma Numbers61To70WellFormed()
    ensures WellFormedFrom(Numbers61To70, 60)
  {
  }

  lemma Numbers71To80WellFormed()
    ensures WellFormedFrom(Numbers71To80, 70)
  {
  }

  lemma Numbers81To90WellFormed()
    ensures WellFormedFrom(Numbers81To90, 80)
  {
  }

  lemma Numbers91To100WellFormed()
    ensures WellFormedFrom(Numbers91To100, 90)
  {
  }

  lemma Numbers101To110WellFormed()
    ensures WellFormedFrom(Numbers101To110, 100)
  {
  }

  lemma Numbers111To118WellFormed()
    ensures WellFormedFrom(Numbers111To118, 110)
  {
  }

  /**
    Entry `i` of the table has atomic number `i + 1`, and every symbol has
    the shape `[A-Z][a-z]?`.
  */
  lemma TableWellFormed()
    ensures |Table| == 118 && WellFormedFrom(Table, 0)
  {
    var t := Numbers1To10;
    Numbers1To10WellFormed();
    assert WellFormedFrom(t + Numbers11To20, 0) by {
      Numbers11To20WellFormed();
      WellFormedAppend(t, Numbers11To20, 0);
    }
    t := t + Numbers11To20;
    assert WellFormedFrom(t + Numbers21To30, 0) by {
      Numbers21To30WellFormed();
      WellFormedAppend(t, Numbers21To30, 0);
    }
    t := t + Numbers21To30;
    assert WellFormedFrom(t + Numbers31To40, 0) by {
      Numbers31To40WellFormed();
      WellFormedAppend(t, Numbers31To40, 0);
    }
    t := t + Numbers31To40;
    assert WellFormedFrom(t + Numbers41To50, 0) by {
      Numbers41To50WellFormed();
      WellFormedAppend(t, Numbers41To50, 0);
    }
    t := t + Numbers41To50;
    assert WellFormedFrom(t + Numbers51To60, 0) by {
      Numbers51To60WellFormed();
      WellFormedAppend(t, Numbers51To60, 0);
    }
    t := t + Numbers51To60;
    assert WellFormedFrom(t + Numbers61To70, 0) by {
      Numbers61To70WellFormed();
      WellFormedAppend(t, Numbers61To70, 0);
    }
    t := t + Numbers61To70;
    assert WellFormedFrom(t + Numbers71To80, 0) by {
      Numbers71To80WellFormed();
      WellFormedAppend(t, Numbers71To80, 0);
    }
    t := t + Numbers71To80;
    assert WellFormedFrom(t + Numbers81To90, 0) by {
      Numbers81To90WellFormed();
      WellFormedAppend(t, Numbers81To90, 0);
    }
    t := t + Numbers81To90;
    assert WellFormedFrom(t + Numbers91To100, 0) by {
      Numbers91To100WellFormed();
      WellFormedAppend(t, Numbers91To100, 0);
    }
    t := t + Numbers91To100;
    assert WellFormedFrom(t + Numbers101To110, 0) by {
      Numbers101To110WellFormed();
      WellFormedAppend(t, Numbers101To110, 0);
    }
    t := t + Numbers101To110;
    assert WellFormedFrom(t + Numbers111To118, 0) by {
      Numbers111To118WellFormed();
      WellFormedAppend(t, Numbers111To118, 0);
    }
    t := t + Numbers111To118;
    assert t == Table;
  }

  /**
    In a table numbered by position with well-shaped symbols, a query of
    digits never names a symbol, so it finds the entry at that position.
  */
  lemma LookupByPosition(t: seq<Element>, query: string)
    requires WellFormedFrom(t, 0)
    requires IsDigits(Strip(query)) && 1 <= DigitsValue(Strip(query)) <= |t|
    ensures Lookup(t, query) == Some(t[DigitsValue(Strip(query)) - 1])
  {
    var q := Strip(query);
    var n := DigitsValue(q);
    forall k | 0 <= k < |t|
      ensures !Matches(t[k], BySymbol(q))
    {
      assert IsUpper(t[k].symbol[0]) && IsDigit(q[0]);
    }
    FindListed(t, BySymbol(q));
    assert Matches(t[n - 1], ByNumber(n));
    assert Find(t, ByNumber(n), 0) == Some(n - 1);
  }

  /** `element_info` on a number from 1 to 118 gives the element with that atomic number. */
  lemma InfoByNumber(query: string)
    requires IsDigits(Strip(query)) && 1 <= DigitsValue(Strip(query)) <= 118
    ensures Info(query) == Some(Table[DigitsValue(Strip(query)) - 1])
    ensures Info(query).value.number == DigitsValue(Strip(query))
  {
    TableWellFormed();
    LookupByPosition(Table, query);
  }

  lemma InfoExamples()
    ensures Info(" H\n") == Some(Element("H", 1, "Hydrogen"))
  {
    assert LStrip(" H\n") == "H\n";
    assert RStrip("H\n") == "H";
    assert Table[0] == Element("H", 1, "Hydrogen");
    assert |Table| > 0;
    assert Table[0].symbol == "H";
    assert Matches(Table[0], BySymbol("H"));
    assert Find(Table, BySymbol("H"), 0) == Some(0);
  }

  lemma SymbolExamples()
    ensures "H" in Symbols && "C" in Symbols && "O" in Symbols && "S" in Symbols
    ensures "Ca" in Symbols && "Fe" in Symbols
  {
    LightSymbols();
    HeavierSymbols();
  }

  lemma LightSymbols()
    ensures "H" in Symbols && "C" in Symbols && "O" in Symbols
  {
    assert Table[0].symbol == "H" && Table[5].symbol == "C" && Table[7].symbol == "O";
  }

  lemma HeavierSymbols()
    ensures "S" in Symbols && "Ca" in Symbols && "Fe" in Symbols
  {
    assert Table[15].symbol == "S" && Table[19].symbol == "Ca" && Table[25].symbol == "Fe";
  }
}
