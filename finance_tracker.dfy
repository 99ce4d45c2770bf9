/**
  The data rules of the personal finance tracker: what `load_data` makes
  of the stored document, which categories and types the prompts accept,
  the append of a transaction, the upsert of a savings goal by name, and
  the month filter and recent list of the summary. Amounts are exact
  reals; the JSON file is a value of `Stored`.
*/
module FinanceTracker {
  import opened Ascii
  import opened Wrappers

  datatype Kind = Income | Expense

  /** A transaction record with its five fields. */
  datatype Transaction = Transaction(kind: Kind, amount: real, description: string, category: string, date: string)

  datatype Goal = Goal(name: string, target: real, current: real)

  /** `self.data`: the two lists of the document. */
  datatype Data = Data(transactions: seq<Transaction>, goals: seq<Goal>)

  /** The value stored under a key: a list, or anything else. */
  datatype Field<T> = List(items: seq<T>) | NotAList

  /**
    What `load_data` finds: no file, a file that does not parse, an object
    whose two keys may be missing, or a document of another JSON type: an
    array (only its string elements matter to `key in data`), a string, or
    a number, boolean or null.
  */
  datatype Stored =
    | NoFile
    | Unreadable
    | Object(transactions: Option<Field<Transaction>>, goals: Option<Field<Goal>>)
    | ArrayDoc(strings: set<string>)
    | TextDoc(text: string)
    | ScalarDoc

  function ListOrEmpty<T>(f: Field<T>): seq<T> {
    if f.List? then f.items else []
  }

  /**
    `load_data`: a missing key empties both lists; a key whose value is not
    a list is reset by itself and the other is kept. `None` is the uncaught
    `TypeError` that ends the program: `key in data` on a number, boolean
    or null, and `data["transactions"]` on an array or string in which both
    key names are found (as elements or as substrings).
  */
  function LoadData(s: Stored): (d: Option<Data>)
    ensures d.None? <==>
      || s.ScalarDoc?
      || (s.ArrayDoc? && "transactions" in s.strings && "goals" in s.strings)
      || (s.TextDoc? && Contains(s.text, "transactions") && Contains(s.text, "goals"))
    ensures d.Some? && !s.Object? ==> d.value == Data([], [])
    ensures s.Object? && (s.transactions.None? || s.goals.None?) ==> d == Some(Data([], []))
    ensures s.Object? && s.transactions.Some? && s.goals.Some? ==>
      && d.Some?
      && (s.transactions.value.List? ==> d.value.transactions == s.transactions.value.items)
      && (s.transactions.value.NotAList? ==> d.value.transactions == [])
      && (s.goals.value.List? ==> d.value.goals == s.goals.value.items)
      && (s.goals.value.NotAList? ==> d.value.goals == [])
  {
    match s
    case Object(Some(t), Some(g)) => Some(Data(ListOrEmpty(t), ListOrEmpty(g)))
    case ArrayDoc(strings) =>
      if "transactions" in strings && "goals" in strings then None else Some(Data([], []))
    case TextDoc(text) =>
      if Contains(text, "transactions") && Contains(text, "goals") then None else Some(Data([], []))
    case ScalarDoc => None
    case _ => Some(Data([], []))
  }

  /** The empty array and the empty string load as empty data; a number and `["transactions", "goals"]` raise. */
  lemma LoadNonObjectExamples()
    ensures LoadData(ArrayDoc({})) == Some(Data([], []))
    ensures LoadData(TextDoc("")) == Some(Data([], []))
    ensures LoadData(ScalarDoc) == None
    ensures LoadData(ArrayDoc({"transactions", "goals"})) == None
  {
  }

  /** What `save_data` writes: both lists under their keys. */
  function Saved(d: Data): Stored {
    Object(Some(List(d.transactions)), Some(List(d.goals)))
  }

  /** Loading what was saved gives the same data. */
  lemma LoadSaved(d: Data)
    ensures LoadData(Saved(d)) == Some(d)
  {
  }

  // ----- Validation -----

  /** One character of the class `[a-zA-Z0-9\s]`. */
  predicate InCategoryClass(c: char) {
    IsLetter(c) || IsDigit(c) || IsSpace(c)
  }

  function AllInClass(s: string): (ok: bool)
    ensures ok <==> forall i :: 0 <= i < |s| ==> InCategoryClass(s[i])
  {
    if s == [] then true
    else InCategoryClass(s[0]) && AllInClass(s[1..])
  }

  /**
    `_validate_category`: `^[a-zA-Z0-9\s]+$` matches at least one
    character and every character is a letter, a digit or whitespace.
  */
  function ValidCategory(category: string): (ok: bool)
    ensures ok <==> category != [] && forall i :: 0 <= i < |category| ==> InCategoryClass(category[i])
  {
    category != [] && AllInClass(category)
  }

  /** Joining two valid categories with a space gives a valid category. */
  lemma {:induction false} CategoryJoin(a: string, b: string)
    requires ValidCategory(a) && ValidCategory(b)
    ensures ValidCategory(a + " " + b)
  {
    var s := a + " " + b;
    forall i | 0 <= i < |s| ensures InCategoryClass(s[i]) {
      if i < |a| {
        assert s[i] == a[i];
      } else if i > |a| {
        assert s[i] == b[i - |a| - 1];
      }
    }
  }

  lemma CategoryExamples()
    ensures ValidCategory("Food") && ValidCategory("Gas 24")
    ensures !ValidCategory("") && !ValidCategory("Food!")
  {
    assert !InCategoryClass("Food!"[4]);
  }

  /** The accepted type names. */
  function KindOf(s: string): (k: Option<Kind>)
    ensures k == Some(Income) <==> s == "income"
    ensures k == Some(Expense) <==> s == "expense"
  {
    if s == "income" then Some(Income) else if s == "expense" then Some(Expense) else None
  }

  /** The type a typed line stands for, after `.lower().strip()`. */
  function KindOfLine(line: string): Option<Kind> {
    KindOf(Strip(Lower(line)))
  }

  /**
    The type prompt of `add_transaction`: lines are read until one names a
    type. `kind` is `None` when the input ends first; `used` counts the
    lines read.
  */
  method ReadKind(lines: seq<string>) returns (kind: Option<Kind>, used: nat)
    ensures used <= |lines|
    ensures kind.Some? ==> 0 < used && KindOfLine(lines[used - 1]) == kind
    ensures kind.None? ==> used == |lines|
    ensures forall j :: 0 <= j < used - (if kind.Some? then 1 else 0) ==> KindOfLine(lines[j]).None?
  {
    kind, used := ReadFirst(lines, KindOfLine);
  }

  /** Lines are read until `parse` makes something of one. */
  method ReadFirst<T>(lines: seq<string>, parse: string -> Option<T>) returns (value: Option<T>, used: nat)
    ensures used <= |lines|
    ensures value.Some? ==> 0 < used && parse(lines[used - 1]) == value
    ensures value.None? ==> used == |lines|
    ensures forall j :: 0 <= j < used - (if value.Some? then 1 else 0) ==> parse(lines[j]).None?
  {
    used := 0;
    while used < |lines|
      invariant used <= |lines|
      invariant forall j :: 0 <= j < used ==> parse(lines[j]).None?
    {
      var t := parse(lines[used]);
      if t.Some? {
        return t, used + 1;
      }
      used := used + 1;
    }
    return None, used;
  }

  predicate NonBlank(s: string) { s != [] }

  /**
    The description and category prompts: lines are read, stripped, until
    one passes `accept`; `None` when the input ends first.
  */
  method ReadUntil(lines: seq<string>, accept: string -> bool) returns (value: Option<string>, used: nat)
    ensures used <= |lines|
    ensures value.Some? ==> 0 < used && value.value == Strip(lines[used - 1]) && accept(value.value)
    ensures value.None? ==> used == |lines|
    ensures forall j :: 0 <= j < used && !(value.Some? && j == used - 1) ==> !accept(Strip(lines[j]))
  {
    value, used := ReadCleaned(lines, Strip, accept);
  }

  /** The loop of `ReadUntil`, with the clean-up of each line (`strip`) as a parameter. */
  method ReadCleaned(lines: seq<string>, clean: string -> string, accept: string -> bool)
    returns (value: Option<string>, used: nat)
    ensures used <= |lines|
    ensures value.Some? ==> 0 < used && value.value == clean(lines[used - 1]) && accept(value.value)
    ensures value.None? ==> used == |lines|
    ensures forall j :: 0 <= j < used && !(value.Some? && j == used - 1) ==> !accept(clean(lines[j]))
  {
    used := 0;
    while used < |lines|
      invariant used <= |lines|
      invariant forall j :: 0 <= j < used ==> !accept(clean(lines[j]))
    {
      var s := clean(lines[used]);
      if accept(s) {
        return Some(s), used + 1;
      }
      used := used + 1;
    }
    return None, used;
  }

  /** The outcome of `_get_valid_input`. */
  datatype Prompted = Accepted(value: string) | TooManyAttempts(message: string) | EndOfInput

  /**
    `_get_valid_input`: the first stripped line among the first
    `maxAttempts` that passes `accept`; after `maxAttempts` failures it
    raises `ValueError`, and `input` raises when the lines run out.
  */
  method GetValidInput(prompt: string, lines: seq<string>, accept: string -> bool, maxAttempts: nat)
    returns (r: Prompted, used: nat)
    ensures used <= |lines| && used <= maxAttempts
    ensures r.Accepted? ==> 0 < used && r.value == Strip(lines[used - 1]) && accept(r.value)
    ensures r.TooManyAttempts? ==> used == maxAttempts && r.message == "Maximum attempts reached for input: " + prompt
    ensures r.EndOfInput? ==> used == |lines| < maxAttempts
    ensures forall j :: 0 <= j < used && !(r.Accepted? && j == used - 1) ==> !accept(Strip(lines[j]))
  {
    r, used := Attempts(prompt, lines, Strip, accept, maxAttempts);
  }

  /** The `for` loop of `_get_valid_input`, with the clean-up of each line (`strip`) as a parameter. */
  method Attempts(prompt: string, lines: seq<string>, clean: string -> string, accept: string -> bool, maxAttempts: nat)
    returns (r: Prompted, used: nat)
    ensures used <= |lines| && used <= maxAttempts
    ensures r.Accepted? ==> 0 < used && r.value == clean(lines[used - 1]) && accept(r.value)
    ensures r.TooManyAttempts? ==> used == maxAttempts && r.message == "Maximum attempts reached for input: " + prompt
    ensures r.EndOfInput? ==> used == |lines| < maxAttempts
    ensures forall j :: 0 <= j < used && !(r.Accepted? && j == used - 1) ==> !accept(clean(lines[j]))
  {
    for attempt := 0 to maxAttempts
      invariant attempt <= |lines|
      invariant forall j :: 0 <= j < attempt ==> !accept(clean(lines[j]))
    {
      if attempt == |lines| {
        return EndOfInput, attempt;
      }
      var userInput := clean(lines[attempt]);
      if accept(userInput) {
        return Accepted(userInput), attempt + 1;
      }
    }
    return TooManyAttempts("Maximum attempts reached for input: " + prompt), maxAttempts;
  }


  // ----- Goals -----

  /** The position of the first goal called `name`, or the length when there is none. */
  function FirstNamed(goals: seq<Goal>, name: string): (k: nat)
    ensures k <= |goals|
    ensures forall j :: 0 <= j < k ==> goals[j].name != name
    ensures k < |goals| ==> goals[k].name == name
  {
    if goals == [] then 0
    else if goals[0].name == name then 0
    else 1 + FirstNamed(goals[1..], name)
  }

  /** The goals after `add_goal`: the first goal of that name takes the new amounts, or a new goal is appended. */
  function Upserted(goals: seq<Goal>, name: string, target: real, current: real): seq<Goal> {
    var k := FirstNamed(goals, name);
    if k < |goals| then goals[k := Goal(name, target, current)] else goals + [Goal(name, target, current)]
  }

  /**
    After the upsert the name is found where it was, or at the new end,
    with the new amounts; a goal is added only when the name was absent,
    and every other goal is untouched.
  */
  lemma UpsertFinds(goals: seq<Goal>, name: string, target: real, current: real)
    ensures var r := Upserted(goals, name, target, current); var k := FirstNamed(goals, name);
      && FirstNamed(r, name) == k
      && r[k] == Goal(name, target, current)
      && |r| == (if k < |goals| then |goals| else |goals| + 1)
      && forall j :: 0 <= j < |goals| && j != k ==> r[j] == goals[j]
  {
    var r := Upserted(goals, name, target, current);
    var k := FirstNamed(goals, name);
    assert r[k].name == name;
    assert forall j :: 0 <= j < k ==> r[j] == goals[j];
  }

  /** A second upsert of the same name only replaces the amounts of the first. */
  lemma UpsertTwice(goals: seq<Goal>, name: string, t1: real, c1: real, t2: real, c2: real)
    ensures Upserted(Upserted(goals, name, t1, c1), name, t2, c2) == Upserted(goals, name, t2, c2)
  {
    UpsertFinds(goals, name, t1, c1);
  }

  predicate DistinctNames(goals: seq<Goal>) {
    forall i, j :: 0 <= i < j < |goals| ==> goals[i].name != goals[j].name
  }

  /** Goal names stay distinct. */
  lemma UpsertKeepsDistinct(goals: seq<Goal>, name: string, target: real, current: real)
    requires DistinctNames(goals)
    ensures DistinctNames(Upserted(goals, name, target, current))
  {
    var r := Upserted(goals, name, target, current);
    UpsertFinds(goals, name, target, current);
    var k := FirstNamed(goals, name);
    forall i, j | 0 <= i < j < |r| ensures r[i].name != r[j].name {
      if k == |goals| && j == k {
        assert r[i] == goals[i];
      }
    }
  }

  // ----- The summary -----

  /** `t["date"].startswith(current_month)` for each transaction, in order. */
  function InMonth(ts: seq<Transaction>, month: string): (r: seq<Transaction>)
    ensures |r| <= |ts|
    ensures forall t :: t in r <==> t in ts && IsPrefix(month, t.date)
    ensures forall t :: multiset(r)[t] == if IsPrefix(month, t.date) then multiset(ts)[t] else 0
  {
    if ts == [] then []
    else
      var head := if IsPrefix(month, ts[0].date) then [ts[0]] else [];
      var rest := InMonth(ts[1..], month);
      KeptInMonth(ts, head, rest, month);
      head + rest
  }

  /** The count of each transaction after one more step of the filter. */
  lemma KeptInMonth(ts: seq<Transaction>, head: seq<Transaction>, rest: seq<Transaction>, month: string)
    requires ts != [] && head == if IsPrefix(month, ts[0].date) then [ts[0]] else []
    requires forall t :: multiset(rest)[t] == if IsPrefix(month, t.date) then multiset(ts[1..])[t] else 0
    ensures forall t :: multiset(head + rest)[t] == if IsPrefix(month, t.date) then multiset(ts)[t] else 0
  {
    assert ts == [ts[0]] + ts[1..];
    assert multiset(ts) == multiset([ts[0]]) + multiset(ts[1..]);
    assert multiset(head + rest) == multiset(head) + multiset(rest);
  }

  /** The filter on a non-empty list: its first transaction when it is of the month, then the filter of the rest. */
  lemma InMonthUnfold(ts: seq<Transaction>, month: string)
    requires ts != []
    ensures InMonth(ts, month) == (if IsPrefix(month, ts[0].date) then [ts[0]] else []) + InMonth(ts[1..], month)
  {
  }

  /** The filter keeps the order of the list: it maps a concatenation to the concatenation of its parts. */
  lemma {:induction false} InMonthAppend(a: seq<Transaction>, b: seq<Transaction>, month: string)
    ensures InMonth(a + b, month) == InMonth(a, month) + InMonth(b, month)
  {
    if a == [] {
      assert a + b == b;
    } else {
      var h := if IsPrefix(month, a[0].date) then [a[0]] else [];
      assert (a + b)[0] == a[0] && (a + b)[1..] == a[1..] + b;
      InMonthUnfold(a + b, month);
      InMonthUnfold(a, month);
      InMonthAppend(a[1..], b, month);
      AppendAssoc(h, InMonth(a[1..], month), InMonth(b, month));
    }
  }

  lemma AppendAssoc(h: seq<Transaction>, x: seq<Transaction>, y: seq<Transaction>)
    ensures h + (x + y) == (h + x) + y
  {
  }

  /** A single transaction is kept exactly when its date starts with the month. */
  lemma InMonthSingle(t: Transaction, month: string)
    ensures InMonth([t], month) == if IsPrefix(month, t.date) then [t] else []
  {
    assert [t][1..] == [];
  }

  /** A month filter takes everything when every date starts with the month, and nothing when none does. */
  lemma {:induction false} InMonthAll(ts: seq<Transaction>, month: string)
    ensures (forall i :: 0 <= i < |ts| ==> IsPrefix(month, ts[i].date)) ==> InMonth(ts, month) == ts
    ensures (forall i :: 0 <= i < |ts| ==> !IsPrefix(month, ts[i].date)) ==> InMonth(ts, month) == []
  {
    if ts != [] {
      InMonthAll(ts[1..], month);
      assert ts == [ts[0]] + ts[1..];
    }
  }

  /** String order, as Python compares `str`: code point by code point, a prefix first. */
  predicate LexLe(a: string, b: string)
    decreases |a|
  {
    a == [] || (b != [] && (a[0] < b[0] || (a[0] == b[0] && LexLe(a[1..], b[1..]))))
  }

  lemma {:induction false} LexTotal(a: string, b: string)
    ensures LexLe(a, b) || LexLe(b, a)
    decreases |a|
  {
    if a != [] && b != [] && a[0] == b[0] {
      LexTotal(a[1..], b[1..]);
    }
  }

  lemma {:induction false} LexTrans(a: string, b: string, c: string)
    requires LexLe(a, b) && LexLe(b, c)
    ensures LexLe(a, c)
    decreases |a|
  {
    if a != [] && a[0] == b[0] && b[0] == c[0] {
      LexTrans(a[1..], b[1..], c[1..]);
    }
  }

  /** Newest first: no date is smaller than a later one. */
  predicate SortedDesc(s: seq<Transaction>) {
    forall i, j :: 0 <= i < j < |s| ==> LexLe(s[j].date, s[i].date)
  }

  /** Insertion into a newest-first list, after every date not older than the new one. */
  function Insert(t: Transaction, s: seq<Transaction>): (r: seq<Transaction>)
    requires SortedDesc(s)
    ensures multiset(r) == multiset(s) + multiset{t}
    ensures SortedDesc(r)
  {
    if s == [] then [t]
    else if LexLe(t.date, s[0].date) then
      var rest := Insert(t, s[1..]);
      BelowHead(t, s, rest);
      ConsSorted(s[0], rest);
      assert s == [s[0]] + s[1..];
      [s[0]] + rest
    else
      AboveAll(t, s);
      ConsSorted(t, s);
      [t] + s
  }

  /** A list holding the tail of `s` and a `t` no newer than `s[0]` stays below `s[0]`. */
  lemma BelowHead(t: Transaction, s: seq<Transaction>, rest: seq<Transaction>)
    requires s != [] && SortedDesc(s) && LexLe(t.date, s[0].date)
    requires multiset(rest) == multiset(s[1..]) + multiset{t}
    ensures forall j :: 0 <= j < |rest| ==> LexLe(rest[j].date, s[0].date)
  {
    forall j | 0 <= j < |rest| ensures LexLe(rest[j].date, s[0].date) {
      var x := rest[j];
      assert x in multiset(rest);
      if x != t {
        TailBelowHead(s, x);
      }
    }
  }

  lemma TailBelowHead(s: seq<Transaction>, x: Transaction)
    requires s != [] && SortedDesc(s) && x in multiset(s[1..])
    ensures LexLe(x.date, s[0].date)
  {
    var k :| 0 <= k < |s[1..]| && s[1..][k] == x;
    assert s[k + 1] == x;
  }

  /** A `t` newer than the head of a newest-first list is newer than all of it. */
  lemma AboveAll(t: Transaction, s: seq<Transaction>)
    requires s != [] && SortedDesc(s) && !LexLe(t.date, s[0].date)
    ensures forall j :: 0 <= j < |s| ==> LexLe(s[j].date, t.date)
  {
    LexTotal(t.date, s[0].date);
    forall j | 0 <= j < |s| ensures LexLe(s[j].date, t.date) {
      if j > 0 {
        LexTrans(s[j].date, s[0].date, t.date);
      }
    }
  }

  lemma ConsSorted(h: Transaction, s: seq<Transaction>)
    requires SortedDesc(s) && forall j :: 0 <= j < |s| ==> LexLe(s[j].date, h.date)
    ensures SortedDesc([h] + s)
  {
    var r := [h] + s;
    forall i, j | 0 <= i < j < |r| ensures LexLe(r[j].date, r[i].date) {
      assert r[j] == s[j - 1];
      if i > 0 {
        assert r[i] == s[i - 1];
      }
    }
  }

  /** `sorted(transactions, key=date, reverse=True)`. */
  function SortDesc(ts: seq<Transaction>): (r: seq<Transaction>)
    ensures SortedDesc(r) && multiset(r) == multiset(ts)
  {
    if ts == [] then []
    else
      assert ts == ts[..|ts| - 1] + [ts[|ts| - 1]];
      Insert(ts[|ts| - 1], SortDesc(ts[..|ts| - 1]))
  }

  /** `[:5]` of the sorted list. */
  function Recent(ts: seq<Transaction>): seq<Transaction> {
    var s := SortDesc(ts);
    if |s| <= 5 then s else s[..5]
  }

  /**
    The recent list holds up to five of the transactions, newest first,
    and every transaction left out is no newer than any that is shown.
  */
  lemma RecentAreNewest(ts: seq<Transaction>)
    ensures var r := Recent(ts);
      && |r| == (if |ts| < 5 then |ts| else 5)
      && SortedDesc(r)
      && multiset(r) <= multiset(ts)
      && forall t, i :: t in multiset(ts) - multiset(r) && 0 <= i < |r| ==> LexLe(t.date, r[i].date)
  {
    var s := SortDesc(ts);
    var r := Recent(ts);
    assert |s| == |ts| by {
      assert |multiset(s)| == |multiset(ts)|;
    }
    var k := |r|;
    assert r == s[..k];
    assert SortedDesc(r) by {
      PrefixSorted(s, k);
    }
    assert multiset(ts) == multiset(r) + multiset(s[k..]) by {
      PrefixSplit(s, k);
    }
    forall t, i | t in multiset(ts) - multiset(r) && 0 <= i < |r| ensures LexLe(t.date, r[i].date) {
      LaterNoNewer(s, k, t, i);
    }
  }

  /** A prefix of a newest-first list is newest-first. */
  lemma PrefixSorted(s: seq<Transaction>, k: nat)
    requires SortedDesc(s) && k <= |s|
    ensures SortedDesc(s[..k])
  {
  }

  /** A list's multiset is that of a prefix plus that of the rest. */
  lemma PrefixSplit(s: seq<Transaction>, k: nat)
    requires k <= |s|
    ensures multiset(s) == multiset(s[..k]) + multiset(s[k..])
  {
    assert s == s[..k] + s[k..];
  }

  /** In a newest-first list, whatever lies after position `k` is no newer than anything before it. */
  lemma LaterNoNewer(s: seq<Transaction>, k: nat, t: Transaction, i: nat)
    requires SortedDesc(s) && i < k <= |s| && t in multiset(s[k..])
    ensures LexLe(t.date, s[i].date)
  {
    var rest := s[k..];
    assert t in rest;
    var j :| 0 <= j < |rest| && rest[j] == t;
    assert s[k + j] == t;
  }

  // ----- The tracker -----

  class Tracker {
    var data: Data

    /** `__init__`: the data is whatever `load_data` makes of the file; a document on which it raises makes no tracker. */
    constructor (stored: Stored)
      requires LoadData(stored).Some?
      ensures data == LoadData(stored).value
    {
      data := LoadData(stored).value;
    }

    /** The append of `add_transaction`, with the record the prompts produced. */
    method AddTransaction(t: Transaction)
      modifies this
      ensures data.transactions == old(data.transactions) + [t]
      ensures data.goals == old(data.goals)
    {
      data := data.(transactions := data.transactions + [t]);
    }

    /**
      The end of `add_goal`: the first goal with that name has its amounts
      replaced; when there is none, the goal is appended.
    */
    method AddGoal(name: string, target: real, current: real)
      modifies this
      ensures data.goals == Upserted(old(data.goals), name, target, current)
      ensures data.transactions == old(data.transactions)
    {
      var goals := data.goals;
      for i := 0 to |goals|
        invariant forall j :: 0 <= j < i ==> goals[j].name != name
        invariant data == old(data)
      {
        if goals[i].name == name {
          assert FirstNamed(goals, name) == i;
          data := data.(goals := goals[i := Goal(name, target, current)]);
          return;
        }
      }
      data := data.(goals := goals + [Goal(name, target, current)]);
    }
  }
}
