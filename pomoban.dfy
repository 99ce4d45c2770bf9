/**
  The Pomodoro Kanban board: a task table whose rows move along
  TODO -> DOING -> DONE, a 25-minute countdown that credits the active task
  when it reaches zero, and the cursor of the three-column view. The
  sqlite table is an in-memory map from row id to row; the timer thread's
  loop body is one sequential step.
*/
module Pomoban {
  import opened Ascii
  import opened Wrappers

  datatype Status = Todo | Doing | Done

  /** `flow.index(status)` in `["TODO", "DOING", "DONE"]`. */
  function Index(s: Status): nat {
    match s
    case Todo => 0
    case Doing => 1
    case Done => 2
  }

  /** The status at a position of the flow. */
  function At(i: nat): (s: Status)
    requires i < 3
    ensures Index(s) == i
  {
    if i == 0 then Todo else if i == 1 then Doing else Done
  }

  /**
    Where `move_task` sends a row: one step along the flow, or nowhere when
    the step leaves it.
  */
  function Moved(s: Status, direction: int): (r: Option<Status>)
    ensures r.Some? <==> 0 <= Index(s) + direction < 3
    ensures r.Some? ==> Index(r.value) == Index(s) + direction
  {
    var i := Index(s) + direction;
    if 0 <= i < 3 then Some(At(i)) else None
  }

  /** Forward and back are inverse steps, and neither end can be passed. */
  lemma MovedInverse(s: Status, t: Status)
    ensures Moved(s, 1) == Some(t) <==> Moved(t, -1) == Some(s)
    ensures Moved(Done, 1).None? && Moved(Todo, -1).None?
    ensures Moved(Todo, 1) == Some(Doing) && Moved(Doing, 1) == Some(Done)
  {
  }

  /** A row of `tasks`; `created` is the date of the insert. */
  datatype Task = Task(text: string, status: Status, pomos: nat, created: string)

  /**
    The table: rows by id, and the id the next insert receives. An
    `INTEGER PRIMARY KEY` with no deletes receives one more than the
    largest id so far.
  */
  datatype Table = Table(rows: map<nat, Task>, nextId: nat) {
    predicate Valid() {
      nextId > 0 && forall id :: id in rows ==> 0 < id < nextId
    }
  }

  /** `add_new_task`: text that is not blank is inserted unstripped, in TODO with no pomodoros. */
  function Insert(t: Table, text: string, today: string): (r: Table)
    ensures Strip(text) == [] ==> r == t
    ensures Strip(text) != [] ==>
      && r.nextId == t.nextId + 1
      && r.rows.Keys == t.rows.Keys + {t.nextId}
      && r.rows[t.nextId] == Task(text, Todo, 0, today)
      && (forall id :: id in t.rows && id != t.nextId ==> r.rows[id] == t.rows[id])
    ensures t.Valid() ==> r.Valid()
  {
    if Strip(text) == [] then t
    else Table(t.rows[t.nextId := Task(text, Todo, 0, today)], t.nextId + 1)
  }

  /** `UPDATE tasks SET status = ? WHERE id = ?`: only that row's status changes. */
  function SetStatus(t: Table, id: nat, s: Status): (r: Table)
    ensures r.nextId == t.nextId && r.rows.Keys == t.rows.Keys
    ensures id in t.rows ==>
      r.rows[id].status == s && r.rows[id].text == t.rows[id].text
      && r.rows[id].pomos == t.rows[id].pomos && r.rows[id].created == t.rows[id].created
    ensures forall k :: k in t.rows && k != id ==> r.rows[k] == t.rows[k]
    ensures t.Valid() ==> r.Valid()
  {
    if id in t.rows then t.(rows := t.rows[id := t.rows[id].(status := s)]) else t
  }

  /** `move_task`: the row `id` takes the status one step from `current`, when there is one. */
  function Move(t: Table, id: nat, current: Status, direction: int): Table {
    match Moved(current, direction)
    case Some(s) => SetStatus(t, id, s)
    case None => t
  }

  /** `add_pomodoro`: that one row's count goes up by one. */
  function Credit(t: Table, id: nat): (r: Table)
    ensures r.nextId == t.nextId && r.rows.Keys == t.rows.Keys
    ensures id in t.rows ==>
      r.rows[id].pomos == t.rows[id].pomos + 1 && r.rows[id].text == t.rows[id].text
      && r.rows[id].status == t.rows[id].status && r.rows[id].created == t.rows[id].created
    ensures forall k :: k in t.rows && k != id ==> r.rows[k] == t.rows[k]
    ensures t.Valid() ==> r.Valid()
  {
    if id in t.rows then t.(rows := t.rows[id := t.rows[id].(pomos := t.rows[id].pomos + 1)]) else t
  }

  /** The rows with status `s` among ids below `n`, in id order. */
  function Below(rows: map<nat, Task>, s: Status, n: nat): (ids: seq<nat>)
    ensures forall i :: 0 <= i < |ids| ==> ids[i] < n
    ensures forall i, j :: 0 <= i < j < |ids| ==> ids[i] < ids[j]
    ensures forall id :: id in ids <==> id in rows && id < n && rows[id].status == s
  {
    if n == 0 then []
    else Below(rows, s, n - 1) + (if n - 1 in rows && rows[n - 1].status == s then [n - 1] else [])
  }

  /**
    `get_tasks_by_status`: the ids of one column, by ascending id (the
    query has no `ORDER BY`; this is the order of a plain table scan).
    Every row lies in exactly the column of its status.
  */
  function Column(t: Table, s: Status): (ids: seq<nat>)
    ensures forall i, j :: 0 <= i < j < |ids| ==> ids[i] < ids[j]
    ensures t.Valid() ==> forall id :: id in ids <==> id in t.rows && t.rows[id].status == s
  {
    Below(t.rows, s, t.nextId)
  }

  /** A task moved forward leaves its column for the next one, and back again. */
  lemma {:induction false} MoveBetweenColumns(t: Table, id: nat, s: Status, u: Status)
    requires t.Valid() && id in Column(t, s) && Moved(s, 1) == Some(u)
    ensures id !in Column(Move(t, id, s, 1), s) && id in Column(Move(t, id, s, 1), u)
    ensures Move(Move(t, id, s, 1), id, u, -1) == t
  {
    var m := Move(t, id, s, 1);
    assert m.Valid();
    MovedInverse(s, u);
    var back := Move(m, id, u, -1);
    assert back.rows == t.rows by {
      assert back.rows.Keys == t.rows.Keys;
      forall k | k in t.rows ensures back.rows[k] == t.rows[k] {
        if k == id {
          assert t.rows[id].status == s;
        }
      }
    }
  }

  // ----- The timer -----

  /** Seconds in one pomodoro: the reset value of `time_left`. */
  const WorkSeconds: nat := 1500

  /** The globals `timer_running`, `time_left` and `active_task_id`. */
  datatype Timer = Timer(running: bool, left: nat, active: Option<nat>)

  /** `if active_task_id:`, where `None` and the id 0 are false. */
  predicate Truthy(id: Option<nat>) {
    id.Some? && id.value != 0
  }

  /** One pass of `timer_loop`: a running timer loses a second and stops at zero. */
  function Tick(t: Timer): (r: Timer)
    ensures r.active == t.active
    ensures t.running && t.left > 0 ==> r.left == t.left - 1 && (r.running <==> t.left > 1)
    ensures !(t.running && t.left > 0) ==> r == t
  {
    if t.running && t.left > 0 then
      var left := t.left - 1;
      Timer(left != 0, left, t.active)
    else t
  }

  /** Whether that pass credits the active task: the pass that reaches zero. */
  predicate Credits(t: Timer) {
    t.running && t.left == 1 && Truthy(t.active)
  }

  /** The timer after `n` passes. */
  function Ticks(t: Timer, n: nat): Timer
    decreases n
  {
    if n == 0 then t else Ticks(Tick(t), n - 1)
  }

  /** How many of `n` passes credit a task. */
  function CreditCount(t: Timer, n: nat): nat
    decreases n
  {
    if n == 0 then 0 else (if Credits(t) then 1 else 0) + CreditCount(Tick(t), n - 1)
  }

  /** A stopped timer, or one at zero, never changes and never credits. */
  lemma {:induction false} IdleStays(t: Timer, n: nat)
    requires !t.running || t.left == 0
    ensures Ticks(t, n) == t && CreditCount(t, n) == 0
  {
    if n > 0 {
      IdleStays(t, n - 1);
    }
  }

  /**
    A timer started with `left` seconds on the clock runs down to zero in
    exactly `left` passes, stops, and credits the active task exactly once.
  */
  lemma {:induction false} FullRun(t: Timer, extra: nat)
    requires t.running && t.left > 0
    ensures Ticks(t, t.left + extra) == Timer(false, 0, t.active)
    ensures CreditCount(t, t.left + extra) == if Truthy(t.active) then 1 else 0
    decreases t.left
  {
    var u := Tick(t);
    assert Ticks(t, t.left + extra) == Ticks(u, u.left + extra);
    if t.left == 1 {
      IdleStays(u, extra);
    } else {
      FullRun(u, extra);
    }
  }

  /** The clock text `MM:SS` of `divmod(time_left, 60)`. */
  function ClockText(left: nat): string {
    PadTwo(left / 60) + ":" + PadTwo(left % 60)
  }

  /** A two-digit field reads back as its value. */
  lemma PadTwoValue(n: nat)
    requires n < 100
    ensures DigitsValue(PadTwo(n)) == n
  {
    NatToStringValue(n);
    if n < 10 {
      var r := PadTwo(n);
      assert r[..1] == "0";
    }
  }

  /** Below 100 minutes the clock has five characters and reads back as the time left. */
  lemma ClockTextValue(left: nat)
    requires left < 6000
    ensures var r := ClockText(left);
      && |r| == 5 && r[2] == ':' && IsDigits(r[..2]) && IsDigits(r[3..])
      && DigitsValue(r[..2]) * 60 + DigitsValue(r[3..]) == left
      && DigitsValue(r[3..]) < 60
  {
    var r := ClockText(left);
    PadTwoValue(left / 60);
    PadTwoValue(left % 60);
    assert r[..2] == PadTwo(left / 60);
    assert r[3..] == PadTwo(left % 60);
  }

  /** The cursor: `col_idx` and `row_idx` of `main`. */
  datatype Cursor = Cursor(col: nat, row: nat)

  /** Key codes as `getch` returns them. */
  const KeyDown: int := 258
  const KeyUp: int := 259
  const KeyLeft: int := 260
  const KeyRight: int := 261
  const KeyBackspace: int := 263
  const KeyAdd: int := 97
  const KeyQuit: int := 113
  const KeyStart: int := 115

  predicate IsEnter(key: int) { key == 10 || key == 13 }
  predicate IsBackspace(key: int) { key == KeyBackspace || key == 127 || key == 8 }

  /** After the reload, a row past the end of a non-empty column moves to its last entry. */
  function Clamped(c: Cursor, len: nat): (r: Cursor)
    ensures r.col == c.col
    ensures len > 0 ==> r.row < len
    ensures c.row < len || len == 0 ==> r == c
  {
    if c.row >= len && len > 0 then c.(row := len - 1) else c
  }

  /** The arrow keys: left and right wrap the column and go back to the top row. */
  function Navigate(c: Cursor, key: int, len: nat): (r: Cursor)
    requires c.col < 3
    ensures r.col < 3
    ensures key == KeyRight ==> r == Cursor((c.col + 1) % 3, 0)
    ensures key == KeyLeft ==> r == Cursor((c.col + 2) % 3, 0)
    ensures key == KeyUp ==> r.col == c.col && r.row == if c.row > 0 then c.row - 1 else c.row
    ensures key == KeyDown ==> r.col == c.col && r.row == if c.row + 1 < len then c.row + 1 else c.row
    ensures !(key in {KeyRight, KeyLeft, KeyUp, KeyDown}) ==> r == c
  {
    if key == KeyRight then Cursor((c.col + 1) % 3, 0)
    else if key == KeyLeft then Cursor((c.col - 1) % 3, 0)
    else if key == KeyUp && c.row > 0 then c.(row := c.row - 1)
    else if key == KeyDown && c.row < len - 1 then c.(row := c.row + 1)
    else c
  }

  /** Up and down keep the row inside a non-empty column; right then left comes back. */
  lemma NavigateInColumn(c: Cursor, key: int, len: nat)
    requires c.col < 3 && c.row < len
    ensures Navigate(c, key, len).row < len
    ensures Navigate(Navigate(c, KeyRight, len), KeyLeft, len) == Cursor(c.col, 0)
    ensures Navigate(Navigate(c, KeyLeft, len), KeyRight, len) == Cursor(c.col, 0)
  {
  }

  /** The id under the cursor, when the column has one. */
  function Selected(list: seq<nat>, row: nat): (r: Option<nat>)
    ensures r.Some? <==> row < |list|
    ensures r.Some? ==> r.value == list[row]
  {
    if row < |list| then Some(list[row]) else None
  }

  /**
    The `s` key: in the DOING column, on a task, it makes that task active
    and toggles the timer, and stopping puts the clock back to 25:00.
    Starting does not reset the clock.
  */
  function StartStop(t: Timer, col: nat, selected: Option<nat>): (r: Timer)
    ensures !(col == 1 && selected.Some?) ==> r == t
    ensures col == 1 && selected.Some? ==>
      && r.active == selected
      && r.running == !t.running
      && r.left == if t.running then WorkSeconds else t.left
  {
    if col == 1 && selected.Some? then
      var running := !t.running;
      Timer(running, if !running then WorkSeconds else t.left, selected)
    else t
  }

  /** Stopping and starting again gives a full pomodoro on a running timer for that task. */
  lemma StopThenStart(t: Timer, id: nat)
    requires t.running
    ensures StartStop(StartStop(t, 1, Some(id)), 1, Some(id)) == Timer(true, WorkSeconds, Some(id))
  {
  }

  /**
    After a pomodoro has run out, one press of `s` marks the timer as
    running with 00:00 on the clock: no pass of the loop changes it, and
    nothing is credited, until it is stopped.
  */
  lemma StartAfterCompletionStalls(t: Timer, id: nat, n: nat)
    requires !t.running && t.left == 0
    ensures var s := StartStop(t, 1, Some(id));
      s.running && s.left == 0 && Ticks(s, n) == s && CreditCount(s, n) == 0
  {
    IdleStays(StartStop(t, 1, Some(id)), n);
  }

  /** The board: the table, the timer globals and the cursor of `main`. */
  class Board {
    var table: Table
    var timer: Timer
    var cursor: Cursor

    ghost predicate Valid()
      reads this
    {
      table.Valid() && timer.left <= WorkSeconds && cursor.col < 3
    }

    /** `init_db` on an existing table, then the start-up state of the globals and of `main`. */
    constructor (table: Table)
      requires table.Valid()
      ensures Valid()
      ensures this.table == table && timer == Timer(false, WorkSeconds, None) && cursor == Cursor(0, 0)
    {
      this.table := table;
      timer := Timer(false, WorkSeconds, None);
      cursor := Cursor(0, 0);
    }

    /** `move_task`. */
    method MoveTask(id: nat, current: Status, direction: int)
      requires Valid()
      modifies this
      ensures Valid()
      ensures table == Move(old(table), id, current, direction)
      ensures timer == old(timer) && cursor == old(cursor)
    {
      var flow := [Todo, Doing, Done];
      var newIdx := Index(current) + direction;
      if 0 <= newIdx < |flow| {
        assert flow[newIdx] == At(newIdx);
        table := SetStatus(table, id, flow[newIdx]);
      }
    }

    /** `add_new_task`. */
    method AddNewTask(text: string, today: string)
      requires Valid()
      modifies this
      ensures Valid()
      ensures table == Insert(old(table), text, today)
      ensures timer == old(timer) && cursor == old(cursor)
    {
      if Strip(text) != [] {
        var id := table.nextId;
        table := Table(table.rows[id := Task(text, Todo, 0, today)], id + 1);
      }
    }

    /** `add_pomodoro`. */
    method AddPomodoro(id: nat)
      requires Valid()
      modifies this
      ensures Valid()
      ensures table == Credit(old(table), id)
      ensures timer == old(timer) && cursor == old(cursor)
    {
      if id in table.rows {
        var row := table.rows[id];
        table := table.(rows := table.rows[id := row.(pomos := row.pomos + 1)]);
      }
    }

    /** One pass of `timer_loop`: the sleeps and the bell are left out. */
    method TimerStep()
      requires Valid()
      modifies this
      ensures Valid()
      ensures timer == Tick(old(timer))
      ensures table == if Credits(old(timer)) then Credit(old(table), old(timer).active.value) else old(table)
      ensures cursor == old(cursor)
    {
      if timer.running && timer.left > 0 {
        timer := timer.(left := timer.left - 1);
        if timer.left == 0 {
          timer := timer.(running := false);
          if timer.active.Some? && timer.active.value != 0 {
            AddPomodoro(timer.active.value);
          }
        }
      }
    }

    /**
      One pass of `main`: reload the current column, clamp the row, then
      act on `key`. `input` is the line typed after `a`; `today` is the
      date. `quit` is true for `q`; `warned` is true when `s` is refused.
    */
    method HandleKey(key: int, input: string, today: string) returns (quit: bool, warned: bool)
      requires Valid()
      modifies this
      ensures Valid()
      ensures var list := Column(old(table), At(old(cursor).col));
        var c := Clamped(old(cursor), |list|);
        && quit == (key == KeyQuit)
        && cursor == (if quit then c else Navigate(c, key, |list|))
        && warned == (key == KeyStart && !(c.col == 1 && list != []))
        && timer == (if key == KeyStart then StartStop(old(timer), c.col, Selected(list, c.row)) else old(timer))
        && table == (if key == KeyAdd then Insert(old(table), input, today)
                     else if IsEnter(key) && list != [] then Move(old(table), list[c.row], At(c.col), 1)
                     else if IsBackspace(key) && list != [] then Move(old(table), list[c.row], At(c.col), -1)
                     else old(table))
    {
      var statuses := [Todo, Doing, Done];
      assert statuses[cursor.col] == At(cursor.col);
      var currentList := Column(table, statuses[cursor.col]);
      if cursor.row >= |currentList| && |currentList| > 0 {
        cursor := cursor.(row := |currentList| - 1);
      }
      ghost var c := cursor;
      assert c == Clamped(old(cursor), |currentList|);
      quit, warned := false, false;
      if key == KeyQuit {
        quit := true;
      } else if key == KeyRight {
        cursor := Cursor((cursor.col + 1) % 3, 0);
        assert cursor == Navigate(c, key, |currentList|);
      } else if key == KeyLeft {
        cursor := Cursor((cursor.col - 1) % 3, 0);
        assert cursor == Navigate(c, key, |currentList|);
      } else if key == KeyUp && cursor.row > 0 {
        cursor := cursor.(row := cursor.row - 1);
        assert cursor == Navigate(c, key, |currentList|);
      } else if key == KeyDown && cursor.row < |currentList| - 1 {
        cursor := cursor.(row := cursor.row + 1);
        assert cursor == Navigate(c, key, |currentList|);
      } else {
        warned := Act(key, input, today, currentList);
        assert cursor == Navigate(c, key, |currentList|);
      }
    }

    /**
      The keys of `main` that change the table or the timer, on the
      selected row `list[cursor.row]` of the current column `list`.
    */
    method Act(key: int, input: string, today: string, list: seq<nat>) returns (warned: bool)
      requires Valid()
      requires list == Column(table, At(cursor.col))
      requires list != [] ==> cursor.row < |list|
      modifies this
      ensures Valid()
      ensures cursor == old(cursor)
      ensures warned == (key == KeyStart && !(cursor.col == 1 && list != []))
      ensures timer == if key == KeyStart then StartStop(old(timer), cursor.col, Selected(list, cursor.row)) else old(timer)
      ensures table == (if key == KeyAdd then Insert(old(table), input, today)
                        else if IsEnter(key) && list != [] then Move(old(table), list[cursor.row], At(cursor.col), 1)
                        else if IsBackspace(key) && list != [] then Move(old(table), list[cursor.row], At(cursor.col), -1)
                        else old(table))
    {
      warned := false;
      if key == KeyAdd {
        AddNewTask(input, today);
      } else if IsEnter(key) {
        if list != [] {
          MoveTask(list[cursor.row], At(cursor.col), 1);
        }
      } else if IsBackspace(key) {
        if list != [] {
          MoveTask(list[cursor.row], At(cursor.col), -1);
        }
      } else if key == KeyStart {
        if cursor.col == 1 && list != [] {
          timer := timer.(active := Some(list[cursor.row]));
          timer := timer.(running := !timer.running);
          if !timer.running {
            timer := timer.(left := WorkSeconds);
          }
        } else {
          warned := true;
        }
      }
    }
  }

  /** The examples of the clock: a fresh pomodoro and one that has run out. */
  lemma ClockExamples()
    ensures ClockText(1500) == "25:00"
    ensures ClockText(0) == "00:00"
  {
    assert NatToString(25) == "25";
  }
}
