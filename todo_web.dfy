/**
  The web front end of the to-do list: the list logic of `add_todo` and
  `delete_todo`, over the same task file and codec as the command-line
  tool. Each request loads the file, changes the list and saves it.
*/
module TodoWeb {
  import opened Ascii
  import opened Wrappers
  import opened TodoCli

  class App {
    /** The text of the shared `todos.txt`, or `None` when it does not exist. */
    var file: Option<string>

    constructor (file: Option<string>)
      ensures this.file == file
    {
      this.file := file;
    }

    function Todos(): seq<string>
      reads this
    {
      LoadTodos(file)
    }

    /**
      `add_todo`: `task` is the form field, `""` when it is absent. A blank
      task is ignored; anything else is stripped and appended, with no
      duplicate check and no length limit.
    */
    method AddTodo(task: string)
      modifies this
      ensures var t := Strip(task);
        file == if t == [] then old(file) else Some(Serialize(old(Todos()) + [t]))
    {
      var t := Strip(task);
      if t != [] {
        var todos := Todos();
        todos := todos + [t];
        file := Some(Serialize(todos));
      }
    }

    /** `delete_todo`: an index in range removes that entry and saves; any other index changes nothing. */
    method DeleteTodo(index: int)
      modifies this
      ensures var n := old(Todos());
        file == if 0 <= index < |n| then Some(Serialize(n[..index] + n[index + 1..])) else old(file)
    {
      var todos := Todos();
      if 0 <= index < |todos| {
        todos := todos[..index] + todos[index + 1..];
        file := Some(Serialize(todos));
      }
    }
  }

  /**
    After an add, the file reads back as the old list with the stripped
    task at the end, even when it duplicates an entry or is longer than the
    command-line limit of 36 characters.
  */
  lemma AddReloads(file: Option<string>, task: string)
    requires Strip(task) != [] && NoLineBreak(Strip(task))
    ensures var t := Strip(task);
      && LoadTodos(Some(Serialize(LoadTodos(file) + [t]))) == LoadTodos(file) + [t]
      && |t| <= |task|
  {
    var ts := LoadTodos(file) + [Strip(task)];
    LoadTodosShape(file);
    StripShape(task);
    forall i | 0 <= i < |ts| ensures Storable(ts[i]) {
      if i < |LoadTodos(file)| { assert ts[i] == LoadTodos(file)[i]; }
    }
    LoadSerialize(ts);
  }

  /** After a delete in range, the file reads back as the old list without that entry, the rest in order. */
  lemma DeleteReloadsAt(file: Option<string>, index: nat)
    requires index < |LoadTodos(file)|
    ensures var n := LoadTodos(file); var rest := n[..index] + n[index + 1..];
      && LoadTodos(Some(Serialize(rest))) == rest
      && |rest| == |n| - 1
      && (forall i :: 0 <= i < index ==> rest[i] == n[i])
      && (forall i :: index <= i < |rest| ==> rest[i] == n[i + 1])
  {
    LoadTodosShape(file);
    DeleteReloads(LoadTodos(file), index + 1);
  }
}
