/**
  The command-line to-do list: the task file as a line codec, `add_task`
  and the add and delete branches of the menu. The file is a field holding
  its text, or `None` when it does not exist; `main`'s own list is a field
  beside it.
*/
module TodoCli {
  import opened Ascii
  import opened Wrappers

  const MaxTaskLen: nat := 36

  // ----- The file as a line codec -----

  /** Universal newlines of text-mode reading: `\r\n` and a lone `\r` both read as `\n`. */
  function Translate(s: string): (r: string)
    ensures forall i :: 0 <= i < |r| ==> r[i] != '\r'
    decreases |s|
  {
    if s == [] then []
    else if s[0] == '\r' then
      if |s| >= 2 && s[1] == '\n' then "\n" + Translate(s[2..]) else "\n" + Translate(s[1..])
    else [s[0]] + Translate(s[1..])
  }

  /** Where the line starting at `i` ends: just after its `\n`, or at the end of the text. */
  function LineEnd(s: string, i: nat): (e: nat)
    requires i < |s|
    ensures i < e <= |s|
    ensures forall k :: i <= k < e - 1 ==> s[k] != '\n'
    ensures s[e - 1] == '\n' || e == |s|
    decreases |s| - i
  {
    if s[i] == '\n' || i + 1 == |s| then i + 1 else LineEnd(s, i + 1)
  }

  /** `readlines`: the text cut after each `\n`, each line keeping its `\n`. */
  function Lines(s: string): seq<string>
    decreases |s|
  {
    if s == [] then [] else var e := LineEnd(s, 0); [s[..e]] + Lines(s[e..])
  }

  /** `load_todos`: the stripped lines of the file, and `[]` when the file is missing. */
  function LoadTodos(file: Option<string>): (ts: seq<string>) {
    match file
    case None => []
    case Some(text) =>
      var ls := Lines(Translate(text));
      seq(|ls|, i requires 0 <= i < |ls| => Strip(ls[i]))
  }

  /** The text `save_todos` writes: each task followed by `\n`. */
  function Serialize(ts: seq<string>): string
    decreases |ts|
  {
    if ts == [] then "" else ts[0] + "\n" + Serialize(ts[1..])
  }

  predicate NoLineBreak(t: string) {
    forall i :: 0 <= i < |t| ==> t[i] != '\n' && t[i] != '\r'
  }

  /** A task the file can hold so that it reads back as itself. */
  predicate Storable(t: string) {
    IsStripped(t) && NoLineBreak(t)
  }

  lemma {:induction false} SerializeSnoc(ts: seq<string>, t: string)
    ensures Serialize(ts + [t]) == Serialize(ts) + t + "\n"
    decreases |ts|
  {
    if ts == [] {
      assert [t][1..] == [];
    } else {
      assert (ts + [t])[1..] == ts[1..] + [t];
      SerializeSnoc(ts[1..], t);
    }
  }

  /** After text with no `\r`, a `\r\n` and a lone `\r` each read as one `\n`. */
  lemma {:induction false} TranslateBreaks(a: string, b: string)
    requires forall i :: 0 <= i < |a| ==> a[i] != '\r'
    ensures Translate(a + "\r\n" + b) == a + "\n" + Translate(b)
    ensures (b == [] || b[0] != '\n') ==> Translate(a + "\r" + b) == a + "\n" + Translate(b)
    decreases |a|
  {
    if a != [] {
      assert (a + "\r\n" + b)[1..] == a[1..] + "\r\n" + b;
      assert (a + "\r" + b)[1..] == a[1..] + "\r" + b;
      TranslateBreaks(a[1..], b);
      assert a == [a[0]] + a[1..];
    } else {
      assert ("\r\n" + b)[2..] == b;
      assert ("\r" + b)[1..] == b;
    }
  }

  /** `a\r\nb\rc` reads as `a\nb\nc`. */
  lemma TranslateExample()
    ensures Translate("a\r\nb\rc") == "a\nb\nc"
  {
    var tail := "b" + "\r" + "c";
    TranslateWithoutReturn("c");
    TranslateBreaks("b", "c");
    TranslateBreaks("a", tail);
    assert "a\r\nb\rc" == "a" + "\r\n" + tail;
  }

  lemma {:induction false} TranslateWithoutReturn(s: string)
    requires forall i :: 0 <= i < |s| ==> s[i] != '\r'
    ensures Translate(s) == s
    decreases |s|
  {
    if s != [] {
      TranslateWithoutReturn(s[1..]);
    }
  }

  lemma LinesCons(t: string, rest: string)
    requires NoLineBreak(t)
    ensures Lines(t + "\n" + rest) == [t + "\n"] + Lines(rest)
  {
    var s := t + "\n" + rest;
    assert s[|t|] == '\n';
    forall k | 0 <= k < |t| ensures s[k] != '\n' { assert s[k] == t[k]; }
    assert LineEnd(s, 0) == |t| + 1;
    assert s[..|t| + 1] == t + "\n";
    assert s[|t| + 1..] == rest;
  }

  lemma StripLine(t: string)
    requires IsStripped(t)
    ensures Strip(t + "\n") == t
  {
    var s := t + "\n";
    if t == [] {
      assert LStrip(s) == [];
    } else {
      assert s[0] == t[0];
      assert LStrip(s) == s;
      assert s[..|s| - 1] == t;
      assert RStrip(s) == RStrip(t);
      StrippedIsFixed(t);
    }
  }

  lemma {:induction false} SerializeText(ts: seq<string>)
    requires forall i :: 0 <= i < |ts| ==> NoLineBreak(ts[i])
    ensures forall i :: 0 <= i < |Serialize(ts)| ==> Serialize(ts)[i] != '\r'
    ensures |Lines(Serialize(ts))| == |ts|
    ensures forall i :: 0 <= i < |ts| ==> Lines(Serialize(ts))[i] == ts[i] + "\n"
    decreases |ts|
  {
    if ts != [] {
      SerializeText(ts[1..]);
      var rest := Serialize(ts[1..]);
      LinesCons(ts[0], rest);
      var s := ts[0] + "\n" + rest;
      forall i | 0 <= i < |s| ensures s[i] != '\r' {
        if i < |ts[0]| { assert s[i] == ts[0][i]; }
        else if i > |ts[0]| { assert s[i] == rest[i - |ts[0]| - 1]; }
      }
    }
  }

  /** Stripped tasks without line breaks are written and read back unchanged. */
  lemma LoadSerialize(ts: seq<string>)
    requires forall i :: 0 <= i < |ts| ==> Storable(ts[i])
    ensures LoadTodos(Some(Serialize(ts))) == ts
  {
    SerializeText(ts);
    TranslateWithoutReturn(Serialize(ts));
    forall i | 0 <= i < |ts| ensures Strip(Lines(Serialize(ts))[i]) == ts[i] {
      StripLine(ts[i]);
    }
  }

  /** A stripped line read from the file holds no line break. */
  lemma StripOfLine(line: string)
    requires forall k :: 0 <= k < |line| ==> line[k] != '\r' && (line[k] == '\n' ==> k == |line| - 1)
    ensures Storable(Strip(line))
  {
    var l := LStrip(line);
    var r := RStrip(l);
    var a := |line| - |l|;
    StripIsStripped(line);
    forall i | 0 <= i < |r| ensures r[i] != '\n' && r[i] != '\r' {
      LineChar(line, l, r, a, i);
    }
  }

  lemma LineChar(line: string, l: string, r: string, a: nat, i: nat)
    requires forall k :: 0 <= k < |line| ==> line[k] != '\r' && (line[k] == '\n' ==> k == |line| - 1)
    requires a + |l| == |line| && l == line[a..]
    requires i < |r| <= |l| && r == l[..|r|] && !IsSpace(r[|r| - 1])
    ensures r[i] != '\n' && r[i] != '\r'
  {
    assert r[i] == line[a + i];
  }

  lemma {:induction false} LinesShape(s: string)
    requires forall i :: 0 <= i < |s| ==> s[i] != '\r'
    ensures forall i :: 0 <= i < |Lines(s)| ==> Storable(Strip(Lines(s)[i]))
    decreases |s|
  {
    if s != [] {
      var e := LineEnd(s, 0);
      FirstLine(s);
      StripOfLine(s[..e]);
      LinesShape(s[e..]);
      AllCons(t => Storable(Strip(t)), s[..e], Lines(s[e..]));
      assert Lines(s) == [s[..e]] + Lines(s[e..]);
    }
  }

  /** A property of a first line and of every later line holds of every line. */
  lemma AllCons(ok: string -> bool, line: string, rest: seq<string>)
    requires ok(line)
    requires forall i :: 0 <= i < |rest| ==> ok(rest[i])
    ensures forall i :: 0 <= i < |[line] + rest| ==> ok(([line] + rest)[i])
  {
    forall i | 0 <= i < |[line] + rest| ensures ok(([line] + rest)[i]) {
      if i > 0 {
        assert ([line] + rest)[i] == rest[i - 1];
      }
    }
  }

  /** The first line of `readlines` has its only `\n` at the end, and neither it nor the rest holds a `\r`. */
  lemma FirstLine(s: string)
    requires s != [] && forall i :: 0 <= i < |s| ==> s[i] != '\r'
    ensures var e := LineEnd(s, 0); var line := s[..e];
      && (forall k :: 0 <= k < |line| ==> line[k] != '\r' && (line[k] == '\n' ==> k == |line| - 1))
      && (forall i :: 0 <= i < |s[e..]| ==> s[e..][i] != '\r')
  {
    var e := LineEnd(s, 0);
    forall k | 0 <= k < e
      ensures s[..e][k] != '\r' && (s[..e][k] == '\n' ==> k == e - 1)
    {
      assert s[..e][k] == s[k];
    }
    forall i | 0 <= i < |s| - e
      ensures s[e..][i] != '\r'
    {
      assert s[e..][i] == s[e + i];
    }
  }

  /** A missing file loads as no tasks; every task loaded from a file is stripped and has no line break. */
  lemma LoadTodosShape(file: Option<string>)
    ensures file.None? ==> LoadTodos(file) == []
    ensures forall i :: 0 <= i < |LoadTodos(file)| ==> Storable(LoadTodos(file)[i])
  {
    if file.Some? {
      LinesShape(Translate(file.value));
    }
  }

  /** Writing back what was loaded changes nothing that a later load sees. */
  lemma SaveLoaded(file: Option<string>)
    ensures LoadTodos(Some(Serialize(LoadTodos(file)))) == LoadTodos(file)
  {
    LoadTodosShape(file);
    LoadSerialize(LoadTodos(file));
  }

  // ----- add_task -----

  /** `{t.strip().lower() for t in todos}`. */
  function Normalized(todos: seq<string>): set<string> {
    set i | 0 <= i < |todos| :: Lower(Strip(todos[i]))
  }

  lemma NormalizedLast(todos: seq<string>, e: string)
    ensures Lower(Strip(e)) in Normalized(todos + [e])
  {
    var ts := todos + [e];
    assert ts[|todos|] == e;
  }

  /** The task after stripping and, when longer than 36 characters, cutting to its first 36. */
  function Truncated(task: string): string {
    var t := Strip(task);
    if |t| > MaxTaskLen then t[..MaxTaskLen] else t
  }

  /** The entry `add_task` appends to `todos`, or `None` when it returns False. */
  function AddedEntry(todos: seq<string>, task: string): Option<string> {
    var t := Truncated(task);
    if Strip(task) == [] then None
    else if Lower(t) in Normalized(todos) then None
    else Some(t)
  }

  /** Stripping a task before adding it changes nothing: `add_task` strips it again. */
  lemma AddedEntryOfStripped(todos: seq<string>, task: string)
    ensures AddedEntry(todos, Strip(task)) == AddedEntry(todos, task)
  {
    StripIdempotent(task);
    assert Truncated(Strip(task)) == Truncated(task);
  }

  /**
    `add_task` refuses a blank task and a case-insensitive duplicate of a
    stored task, and appends anything else, cut to at most 36 characters.
  */
  lemma AddedEntryCases(todos: seq<string>, task: string)
    ensures AddedEntry(todos, task).None? <==>
      AllSpace(task) || exists i :: 0 <= i < |todos| && Lower(Strip(todos[i])) == Lower(Truncated(task))
    ensures AddedEntry(todos, task).Some? ==>
      var e := AddedEntry(todos, task).value;
      && 0 < |e| <= MaxTaskLen && e == Strip(task)[..|e|]
      && |e| == if |Strip(task)| > MaxTaskLen then MaxTaskLen else |Strip(task)|
  {
    StripShape(task);
    if Lower(Truncated(task)) in Normalized(todos) {
      var i :| 0 <= i < |todos| && Lower(Strip(todos[i])) == Lower(Truncated(task));
    }
  }

  /** A task of at most 36 characters is refused the second time it is added. */
  lemma AddShortTaskOnce(todos: seq<string>, task: string)
    requires AddedEntry(todos, task).Some? && |Strip(task)| <= MaxTaskLen
    ensures AddedEntry(todos + [AddedEntry(todos, task).value], task).None?
  {
    var e := AddedEntry(todos, task).value;
    StripShape(task);
    NormalizedLast(todos, e);
  }

  // ----- The store -----

  /** What the add branch of the menu reports. */
  datatype AddReply = Added | DuplicateOrEmpty | CannotBeEmpty

  class Store {
    /** The text of `todos.txt`, or `None` when the file does not exist. */
    var file: Option<string>
    /** The list `main` keeps between menu choices. */
    var todos: seq<string>

    /** `main` starts from the loaded file. */
    constructor (file: Option<string>)
      ensures this.file == file && todos == LoadTodos(file)
    {
      this.file := file;
      todos := LoadTodos(file);
    }

    function Load(): seq<string>
      reads this
    {
      LoadTodos(file)
    }

    /** `save_todos`: the file is replaced by each task followed by `\n`. */
    method SaveTodos(ts: seq<string>)
      modifies this
      ensures file == Some(Serialize(ts)) && todos == old(todos)
    {
      var text := "";
      for k := 0 to |ts|
        invariant text == Serialize(ts[..k])
        invariant todos == old(todos)
      {
        SerializeSnoc(ts[..k], ts[k]);
        assert ts[..k + 1] == ts[..k] + [ts[k]];
        text := text + ts[k] + "\n";
      }
      assert ts[..|ts|] == ts;
      file := Some(text);
    }

    /** `add_task`: the file is written only when the task is added. */
    method AddTask(task: string) returns (added: bool)
      modifies this
      ensures added == AddedEntry(old(Load()), task).Some?
      ensures file == if added then Some(Serialize(old(Load()) + [AddedEntry(old(Load()), task).value])) else old(file)
      ensures todos == old(todos)
    {
      var t := Strip(task);
      if t == [] {
        return false;
      }
      if |t| > MaxTaskLen {
        t := t[..MaxTaskLen];
      }
      var current := Load();
      var normalized := Normalized(current);
      if Lower(t) in normalized {
        return false;
      }
      SaveTodos(current + [t]);
      return true;
    }

    /** The add branch of the menu: the input is stripped, and the list is reloaded after an add. */
    method MenuAdd(input: string) returns (reply: AddReply)
      modifies this
      ensures reply == CannotBeEmpty <==> AllSpace(input)
      ensures reply == Added <==> AddedEntry(old(Load()), input).Some?
      ensures reply == Added ==> todos == Load() && file == Some(Serialize(old(Load()) + [AddedEntry(old(Load()), input).value]))
      ensures reply != Added ==> todos == old(todos) && file == old(file)
    {
      var task := Strip(input);
      StripShape(input);
      if task == [] {
        return CannotBeEmpty;
      }
      AddedEntryOfStripped(Load(), input);
      var added := AddTask(task);
      if added {
        todos := Load();
        return Added;
      }
      return DuplicateOrEmpty;
    }

    /**
      The delete branch of the menu: `number` is the parsed input, `None`
      when `int()` fails. Task number `k` is removed, and the file saved,
      exactly when `1 <= k <= |todos|`.
    */
    method MenuDelete(number: Option<int>) returns (removed: Option<string>)
      modifies this
      ensures var n := old(todos);
        if number.Some? && 1 <= number.value <= |n| then
          && removed == Some(n[number.value - 1])
          && todos == n[..number.value - 1] + n[number.value..]
          && file == Some(Serialize(todos))
        else
          removed.None? && todos == n && file == old(file)
    {
      if number.None? {
        return None;
      }
      var index := number.value - 1;
      if 0 <= index < |todos| {
        var item := todos[index];
        todos := todos[..index] + todos[index + 1..];
        SaveTodos(todos);
        return Some(item);
      }
      return None;
    }
  }

  /**
    After a delete the file holds exactly the remaining tasks: loading it
    gives the list with task number `k` removed, the others in order.
  */
  lemma DeleteReloads(todos: seq<string>, k: nat)
    requires forall i :: 0 <= i < |todos| ==> Storable(todos[i])
    requires 1 <= k <= |todos|
    ensures var rest := todos[..k - 1] + todos[k..];
      && LoadTodos(Some(Serialize(rest))) == rest
      && |rest| == |todos| - 1
      && (forall i :: 0 <= i < k - 1 ==> rest[i] == todos[i])
      && (forall i :: k - 1 <= i < |rest| ==> rest[i] == todos[i + 1])
  {
    var rest := todos[..k - 1] + todos[k..];
    Removed(todos, k);
    assert LoadTodos(Some(Serialize(rest))) == rest by {
      forall i | 0 <= i < |rest| ensures Storable(rest[i]) {
        if i < k - 1 { assert rest[i] == todos[i]; } else { assert rest[i] == todos[i + 1]; }
      }
      LoadSerialize(rest);
    }
  }

  /** `pop(k - 1)`: the list without its `k`-th element, the others in order. */
  lemma Removed(todos: seq<string>, k: nat)
    requires 1 <= k <= |todos|
    ensures var rest := todos[..k - 1] + todos[k..];
      && |rest| == |todos| - 1
      && (forall i :: 0 <= i < k - 1 ==> rest[i] == todos[i])
      && (forall i :: k - 1 <= i < |rest| ==> rest[i] == todos[i + 1])
  {
  }

  // ----- Truncation after stripping -----

  lemma {:induction false} RStripSpacesAfter(w: string, sp: string)
    requires w != [] && !IsSpace(w[|w| - 1]) && AllSpace(sp)
    ensures RStrip(w + sp) == w
    decreases |sp|
  {
    if sp == [] {
      assert w + sp == w;
    } else {
      var s := w + sp;
      assert s[|s| - 1] == sp[|sp| - 1];
      assert s[..|s| - 1] == w + sp[..|sp| - 1];
      RStripSpacesAfter(w, sp[..|sp| - 1]);
    }
  }

  /** Whitespace after a stripped word is all that `strip` removes. */
  lemma StripSpacesAfter(w: string, sp: string)
    requires w != [] && IsStripped(w) && AllSpace(sp)
    ensures Strip(w + sp) == w
  {
    assert (w + sp)[0] == w[0];
    assert LStrip(w + sp) == w + sp;
    RStripSpacesAfter(w, sp);
  }

  lemma TruncatedAtSpace(w: string)
    requires |w| == MaxTaskLen - 1 && NoSpace(w)
    ensures Truncated(w + " b") == w + " "
  {
    var task := w + " b";
    assert task[0] == w[0] && task[|task| - 1] == 'b';
    StrippedIsFixed(task);
    assert task[..MaxTaskLen] == w + " ";
  }

  lemma NotNormalized(w: string)
    requires |w| == MaxTaskLen - 1 && NoSpace(w)
    ensures Lower(w + " ") !in Normalized([w + " "])
  {
    StripSpacesAfter(w, " ");
    assert forall x :: x in Normalized([w + " "]) ==> x == Lower(w);
  }

  lemma LoadTwice(w: string)
    requires w != [] && NoSpace(w)
    ensures LoadTodos(Some(Serialize([w + " ", w + " "]))) == [w, w]
  {
    var cut := w + " ";
    SpacedNoLineBreak(w);
    assert Strip(cut + "\n") == w by {
      assert cut + "\n" == w + " \n";
      StripSpacesAfter(w, " \n");
    }
    LoadSameTwice(cut, w);
  }

  /** A line written twice whose stripped form is `w` loads as `w` twice. */
  lemma LoadSameTwice(t: string, w: string)
    requires NoLineBreak(t) && Strip(t + "\n") == w
    ensures LoadTodos(Some(Serialize([t, t]))) == [w, w]
  {
    var text := Serialize([t, t]);
    var r := LoadTodos(Some(text));
    assert |r| == 2 && r[0] == w && r[1] == w by {
      LinesOfTwo(t);
      LoadShape(text);
    }
    Pair(r, w);
  }

  lemma Pair(r: seq<string>, w: string)
    requires |r| == 2 && r[0] == w && r[1] == w
    ensures r == [w, w]
  {
  }

  /** The loaded list holds one stripped entry per line of the file. */
  lemma LoadShape(text: string)
    ensures |LoadTodos(Some(text))| == |Lines(Translate(text))|
    ensures forall i :: 0 <= i < |Lines(Translate(text))| ==>
      LoadTodos(Some(text))[i] == Strip(Lines(Translate(text))[i])
  {
  }

  /** The file holding one line twice reads back as those two lines. */
  lemma LinesOfTwo(t: string)
    requires NoLineBreak(t)
    ensures Lines(Translate(Serialize([t, t]))) == [t + "\n", t + "\n"]
  {
    var ts := [t, t];
    SerializeText(ts);
    TranslateWithoutReturn(Serialize(ts));
  }

  lemma SpacedNoLineBreak(w: string)
    requires NoSpace(w)
    ensures NoLineBreak(w + " ")
  {
    var cut := w + " ";
    forall i | 0 <= i < |cut| ensures cut[i] != '\n' && cut[i] != '\r' {
      if i < |w| { assert cut[i] == w[i]; }
    }
  }

  /**
    As written, `add_task` strips before it truncates, so a cut that ends
    in a space is compared unstripped against stripped entries: adding
    `w + " b"` for a 35-character word `w` succeeds again right after it
    was added, and the file then holds the same task twice.
  */
  lemma AddTruncatedTwice(w: string)
    requires |w| == MaxTaskLen - 1 && NoSpace(w)
    ensures AddedEntry([], w + " b") == Some(w + " ")
    ensures AddedEntry([w + " "], w + " b") == Some(w + " ")
    ensures LoadTodos(Some(Serialize([w + " ", w + " "]))) == [w, w]
  {
    TruncatedAtSpace(w);
    assert Strip(w + " b") != [] by {
      StripShape(w + " b");
      assert (w + " b")[|w| + 1] == 'b';
    }
    NotNormalized(w);
    LoadTwice(w);
  }

  /** The evidently intended order: cut to 36 characters, then strip, so a stored entry is always stripped. */
  function AddedEntryFixed(todos: seq<string>, task: string): Option<string> {
    var t := Strip(Truncated(task));
    if t == [] then None
    else if Lower(t) in Normalized(todos) then None
    else Some(t)
  }

  /** With the corrected order an entry is stripped, and adding the same task twice always fails the second time. */
  lemma AddFixedOnce(todos: seq<string>, task: string)
    requires AddedEntryFixed(todos, task).Some?
    ensures var e := AddedEntryFixed(todos, task).value;
      && IsStripped(e) && 0 < |e| <= MaxTaskLen
      && AddedEntryFixed(todos + [e], task).None?
  {
    var e := Strip(Truncated(task));
    assert AddedEntryFixed(todos, task).value == e;
    StrippedCut(task);
    assert Lower(e) in Normalized(todos + [e]) by {
      NormalizedLast(todos, e);
    }
  }

  /** The cut and stripped task is stripped, at most 36 characters long, and `strip` leaves it as it is. */
  lemma StrippedCut(task: string)
    ensures var e := Strip(Truncated(task)); IsStripped(e) && |e| <= MaxTaskLen && Strip(e) == e
  {
    var t := Truncated(task);
    assert |t| <= MaxTaskLen;
    StripShape(t);
    StripIdempotent(t);
    assert |Strip(t)| <= |LStrip(t)| <= |t|;
  }
}
