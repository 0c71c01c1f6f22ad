/**
 * The to-do resource of src/server.js: `nextTodoId` and `todos` become the
 * fields of a TodoList, each to-do an object whose title and completed flag
 * the PUT handler updates in place.
 */
module Todos {
  import opened Wrappers
  import opened JsValues

  class Todo {
    const id: int
    var title: string
    var completed: bool
    const createdAt: Time

    constructor (id: int, title: string, completed: bool, createdAt: Time)
      ensures this.id == id && this.title == title && this.completed == completed
      ensures this.createdAt == createdAt
    {
      this.id := id;
      this.title := title;
      this.completed := completed;
      this.createdAt := createdAt;
    }
  }

  /** Why a to-do request is answered with 400 or 404. */
  datatype TodoError =
    | InvalidCompletedQuery  // GET list: completed is neither "true" nor "false"
    | TitleRequired          // POST: title missing, not a string or blank
    | TitleInvalid           // PUT: title given but not a string or blank
    | CompletedNotBoolean    // POST and PUT: completed given but not a boolean
    | NotFound               // GET, PUT, DELETE: no to-do with that id

  /** The `message` of the to-do routes' 400 and 404 answers; each names the field it is about. */
  function TodoMessage(e: TodoError): (msg: string)
    ensures e.TitleRequired? || e.TitleInvalid? ==> |msg| > 11 && msg[..11] == "title alani"
    ensures e.CompletedNotBoolean? || e.InvalidCompletedQuery? ==> |msg| > 9 && msg[..9] == "completed"
  {
    match e
    case InvalidCompletedQuery => "completed" + " query parametresi sadece true veya false olabilir"
    case TitleRequired => "title alani" + " zorunlu ve string olmalidir"
    case TitleInvalid => "title alani" + " string ve bos olmamalidir"
    case CompletedNotBoolean => "completed" + " alani boolean olmalidir"
    case NotFound => "Kayit bulunamadi"
  }

  /** Every to-do error has its own message; POST and PUT word a bad title differently. */
  lemma TodoMessagesDistinct(e1: TodoError, e2: TodoError)
    requires e1 != e2
    ensures TodoMessage(e1) != TodoMessage(e2)
  {
  }

  /** `item.id === Number(param)`: a NaN or infinite parameter matches nothing. */
  predicate IdMatches(id: Option<real>, todoId: int) {
    id == Some(todoId as real)
  }

  /** `todos.find` by id: the position of the first to-do with that id, or -1. */
  function IndexOfId(ts: seq<Todo>, id: Option<real>): (i: int)
    ensures -1 <= i < |ts|
    ensures i >= 0 ==> IdMatches(id, ts[i].id)
    ensures forall j :: 0 <= j < |ts| && (i < 0 || j < i) ==> !IdMatches(id, ts[j].id)
  {
    if ts == [] then -1
    else if IdMatches(id, ts[0].id) then 0
    else
      var i := IndexOfId(ts[1..], id);
      if i < 0 then -1 else i + 1
  }

  /** `todos.filter(item => item.id !== id)`: every to-do with another id, in order. */
  function WithoutId(ts: seq<Todo>, id: Option<real>): (r: seq<Todo>)
    ensures |r| <= |ts|
    ensures |r| == |ts| <==> IndexOfId(ts, id) < 0
  {
    if ts == [] then []
    else
      var rest := WithoutId(ts[1..], id);
      if IdMatches(id, ts[0].id) then rest else [ts[0]] + rest
  }

  /** What is left after removing an id: exactly the to-dos with another id. */
  lemma {:induction false} WithoutIdContents(ts: seq<Todo>, id: Option<real>)
    ensures var r := WithoutId(ts, id);
      && (forall k :: 0 <= k < |r| ==> r[k] in ts && !IdMatches(id, r[k].id))
      && (forall k :: 0 <= k < |ts| && !IdMatches(id, ts[k].id) ==> ts[k] in r)
  {
    if ts != [] {
      var tail := ts[1..];
      WithoutIdContents(tail, id);
      var rest := WithoutId(tail, id);
      var r := WithoutId(ts, id);
      forall k | 0 <= k < |r| ensures r[k] in ts && !IdMatches(id, r[k].id) {
        if IdMatches(id, ts[0].id) || k > 0 {
          var k' := if IdMatches(id, ts[0].id) then k else k - 1;
          assert r[k] == rest[k'];
          assert rest[k'] in tail;
        }
      }
      forall k | 0 <= k < |ts| && !IdMatches(id, ts[k].id) ensures ts[k] in r {
        if k > 0 {
          assert ts[k] == tail[k - 1];
          assert ts[k] in rest;
        }
      }
    }
  }

  /** `todos.filter(item => item.completed === b)`: the to-dos with that flag, in order. */
  function WithCompleted(ts: seq<Todo>, b: bool): (r: seq<Todo>)
    reads ts
    ensures |r| <= |ts|
    ensures forall k :: 0 <= k < |r| ==> r[k].completed == b
  {
    if ts == [] then []
    else
      var rest := WithCompleted(ts[1..], b);
      if ts[0].completed == b then [ts[0]] + rest else rest
  }

  /** The flag filter keeps exactly the to-dos with that flag. */
  lemma {:induction false} WithCompletedContents(ts: seq<Todo>, b: bool)
    ensures forall k :: 0 <= k < |WithCompleted(ts, b)| ==> WithCompleted(ts, b)[k] in ts
    ensures forall k :: 0 <= k < |ts| && ts[k].completed == b ==> ts[k] in WithCompleted(ts, b)
  {
    if ts != [] {
      var tail := ts[1..];
      WithCompletedContents(tail, b);
      var rest := WithCompleted(tail, b);
      var r := WithCompleted(ts, b);
      forall k | 0 <= k < |r| ensures r[k] in ts {
        if ts[0].completed != b || k > 0 {
          var k' := if ts[0].completed != b then k else k - 1;
          assert 0 <= k' < |rest| && r[k] == rest[k'];
          assert rest[k'] in tail;
        }
      }
      forall k | 0 <= k < |ts| && ts[k].completed == b ensures ts[k] in r {
        if k > 0 {
          assert ts[k] == tail[k - 1];
          assert ts[k] in rest;
        }
      }
    }
  }

  /** Filtering by the completed flag keeps the list's increasing id order. */
  lemma WithCompletedKeepsOrder(ts: seq<Todo>, b: bool)
    ensures TodoIdsIncreasing(ts) ==> TodoIdsIncreasing(WithCompleted(ts, b))
  {
    if ts != [] && TodoIdsIncreasing(ts) {
      WithCompletedOrdered(ts, b, ts[0].id - 1);
    }
  }

  /** Filtering by the flag keeps increasing ids increasing and above any bound they were above. */
  lemma {:induction false} WithCompletedOrdered(ts: seq<Todo>, b: bool, bound: int)
    requires TodoIdsIncreasing(ts) && forall k :: 0 <= k < |ts| ==> bound < ts[k].id
    ensures TodoIdsIncreasing(WithCompleted(ts, b))
    ensures forall k :: 0 <= k < |WithCompleted(ts, b)| ==> bound < WithCompleted(ts, b)[k].id
  {
    if ts != [] {
      var tail := ts[1..];
      assert TodoIdsIncreasing(tail) by {
        forall i, j | 0 <= i < j < |tail| ensures tail[i].id < tail[j].id {
          assert tail[i] == ts[i + 1] && tail[j] == ts[j + 1];
        }
      }
      forall k | 0 <= k < |tail| ensures ts[0].id < tail[k].id {
        assert tail[k] == ts[k + 1];
      }
      WithCompletedOrdered(tail, b, ts[0].id);
      var rest := WithCompleted(tail, b);
      if ts[0].completed == b {
        var r := [ts[0]] + rest;
        assert WithCompleted(ts, b) == r;
        forall i, j | 0 <= i < j < |r| ensures r[i].id < r[j].id {
          assert r[j] == rest[j - 1];
          if i > 0 {
            assert r[i] == rest[i - 1];
          }
        }
      }
    }
  }

  /** Ids strictly increase along the list (so no to-do object appears twice). */
  predicate TodoIdsIncreasing(ts: seq<Todo>) {
    forall i, j :: 0 <= i < j < |ts| ==> ts[i].id < ts[j].id
  }

  /** Removing to-dos keeps the remaining ids in increasing order. */
  lemma WithoutIdKeepsOrder(ts: seq<Todo>, id: Option<real>)
    requires TodoIdsIncreasing(ts)
    ensures TodoIdsIncreasing(WithoutId(ts, id))
  {
    if ts != [] {
      WithoutIdOrdered(ts, id, ts[0].id - 1);
    }
  }

  /** Removing keeps increasing ids increasing and above any bound they were above. */
  lemma {:induction false} WithoutIdOrdered(ts: seq<Todo>, id: Option<real>, bound: int)
    requires TodoIdsIncreasing(ts) && forall k :: 0 <= k < |ts| ==> bound < ts[k].id
    ensures TodoIdsIncreasing(WithoutId(ts, id))
    ensures forall k :: 0 <= k < |WithoutId(ts, id)| ==> bound < WithoutId(ts, id)[k].id
  {
    if ts != [] {
      var tail := ts[1..];
      assert TodoIdsIncreasing(tail) by {
        forall i, j | 0 <= i < j < |tail| ensures tail[i].id < tail[j].id {
          assert tail[i] == ts[i + 1] && tail[j] == ts[j + 1];
        }
      }
      forall k | 0 <= k < |tail| ensures ts[0].id < tail[k].id {
        assert tail[k] == ts[k + 1];
      }
      WithoutIdOrdered(tail, id, ts[0].id);
      var rest := WithoutId(tail, id);
      if !IdMatches(id, ts[0].id) {
        var r := [ts[0]] + rest;
        assert WithoutId(ts, id) == r;
        forall i, j | 0 <= i < j < |r| ensures r[i].id < r[j].id {
          assert r[j] == rest[j - 1];
          if i > 0 {
            assert r[i] == rest[i - 1];
          }
        }
      }
    }
  }

  /** With distinct ids, deleting an id that exists removes exactly one to-do. */
  lemma {:induction false} DeleteRemovesOne(ts: seq<Todo>, id: Option<real>)
    requires TodoIdsIncreasing(ts) && IndexOfId(ts, id) >= 0
    ensures |WithoutId(ts, id)| == |ts| - 1
  {
    if !IdMatches(id, ts[0].id) {
      DeleteRemovesOne(ts[1..], id);
    } else {
      assert forall j :: 1 <= j < |ts| ==> ts[0].id < ts[j].id;
      assert IndexOfId(ts[1..], id) < 0;
    }
  }

  /** The fields PUT may change. */
  datatype TodoFields = TodoFields(title: string, completed: bool)

  /** A title field the handlers accept: a string that is not blank. */
  predicate ValidTitle(v: JsValue) {
    v.Str? && Trim(v.s) != []
  }

  /**
   * The PUT handler's field-by-field update: a given title is checked and
   * applied first, then a given completed flag is checked and applied. A bad
   * completed flag is reported after the title has already been applied.
   */
  function ApplyUpdate(before: TodoFields, title: JsValue, completed: JsValue): (r: (TodoFields, Option<TodoError>))
    ensures !title.Undefined? && !ValidTitle(title) ==> r == (before, Some(TitleInvalid))
    ensures r.1.None? <==> (title.Undefined? || ValidTitle(title)) && (completed.Undefined? || completed.Bool?)
    ensures title.Undefined? || ValidTitle(title) ==>
      r.0.title == (if title.Undefined? then before.title else Trim(title.s))
    ensures (title.Undefined? || ValidTitle(title)) && !completed.Undefined? && !completed.Bool? ==>
      r.1 == Some(CompletedNotBoolean)
    ensures r.0.completed == (if r.1.None? && completed.Bool? then completed.b else before.completed)
  {
    var afterTitle :=
      if title.Undefined? then before
      else if !ValidTitle(title) then before
      else before.(title := Trim(title.s));
    if !title.Undefined? && !ValidTitle(title) then (before, Some(TitleInvalid))
    else if completed.Undefined? then (afterTitle, None)
    else if !completed.Bool? then (afterTitle, Some(CompletedNotBoolean))
    else (afterTitle.(completed := completed.b), None)
  }

  /** Repeating an update that succeeded changes nothing further. */
  lemma ApplyUpdateIdempotent(before: TodoFields, title: JsValue, completed: JsValue)
    requires ApplyUpdate(before, title, completed).1.None?
    ensures var after := ApplyUpdate(before, title, completed).0;
      ApplyUpdate(after, title, completed) == (after, None)
  {
    if !title.Undefined? {
      TrimIdempotent(title.s);
    }
  }

  class TodoList {
    var nextTodoId: int
    var todos: seq<Todo>

    ghost predicate Valid()
      reads this
    {
      && TodoIdsIncreasing(todos)
      && forall i :: 0 <= i < |todos| ==> todos[i].id < nextTodoId
    }

    function Fields(t: Todo): TodoFields
      reads t
    {
      TodoFields(t.title, t.completed)
    }

    /** Process start: the seeded to-do 1, "Ilk gorev", not completed; the next id is 2. */
    constructor (createdAt: Time)
      ensures Valid() && nextTodoId == 2 && |todos| == 1
      ensures todos[0].id == 1 && todos[0].title == "Ilk gorev" && !todos[0].completed
    {
      var first := new Todo(1, "Ilk gorev", false, createdAt);
      nextTodoId := 2;
      todos := [first];
    }

    /** GET /api/v1/todos: all to-dos, or those with the requested completed flag. */
    function List(completedQuery: JsValue): (r: Result<seq<Todo>, TodoError>)
      reads this, todos
      ensures r.Failure? <==> ParseBool(completedQuery).Invalid?
      ensures r.Failure? ==> r.error == InvalidCompletedQuery
      ensures completedQuery.Undefined? ==> r == Success(todos)
      ensures ParseBool(completedQuery).Parsed? ==>
        && r.Success?
        && (forall k :: 0 <= k < |r.value| ==> r.value[k] in todos && r.value[k].completed == ParseBool(completedQuery).b)
        && (forall k :: 0 <= k < |todos| && todos[k].completed == ParseBool(completedQuery).b ==> todos[k] in r.value)
      ensures ParseBool(completedQuery).Parsed? && TodoIdsIncreasing(todos) ==> r.Success? && TodoIdsIncreasing(r.value)
    {
      match ParseBool(completedQuery)
      case Invalid => Failure(InvalidCompletedQuery)
      case Unset => Success(todos)
      case Parsed(b) =>
        WithCompletedContents(todos, b);
        WithCompletedKeepsOrder(todos, b);
        Success(WithCompleted(todos, b))
    }

    /** GET /api/v1/todos/:id: the first to-do with that id, or not found. */
    function Get(idParam: JsValue): (r: Result<Todo, TodoError>)
      reads this
      ensures r.Success? ==> r.value in todos && IdMatches(ToNumberOrNull(idParam), r.value.id)
      ensures r.Failure? <==> forall t :: t in todos ==> !IdMatches(ToNumberOrNull(idParam), t.id)
      ensures r.Failure? ==> r.error == NotFound
    {
      var i := IndexOfId(todos, ToNumberOrNull(idParam));
      if i < 0 then Failure(NotFound) else Success(todos[i])
    }

    /** POST /api/v1/todos: a trimmed, non-blank title and an optional boolean flag (default false). */
    method Create(title: JsValue, completed: JsValue, createdAt: Time) returns (r: Result<Todo, TodoError>)
      requires Valid()
      modifies this
      ensures Valid()
      ensures !ValidTitle(title) ==> r == Failure(TitleRequired)
      ensures ValidTitle(title) && !completed.Undefined? && !completed.Bool? ==> r == Failure(CompletedNotBoolean)
      ensures r.Success? <==> ValidTitle(title) && (completed.Undefined? || completed.Bool?)
      ensures r.Failure? ==> todos == old(todos) && nextTodoId == old(nextTodoId)
      ensures r.Success? ==>
        && ValidTitle(title)
        && fresh(r.value)
        && r.value.id == old(nextTodoId) && nextTodoId == old(nextTodoId) + 1
        && r.value.title == Trim(title.s)
        && r.value.completed == (completed.Bool? && completed.b)
        && r.value.createdAt == createdAt
        && todos == old(todos) + [r.value]
    {
      if !ValidTitle(title) {
        return Failure(TitleRequired);
      }
      var flag := if completed.Undefined? then Bool(false) else completed;
      if !flag.Bool? {
        return Failure(CompletedNotBoolean);
      }
      var todo := new Todo(nextTodoId, Trim(title.s), flag.b, createdAt);
      nextTodoId := nextTodoId + 1;
      todos := todos + [todo];
      r := Success(todo);
    }

    /**
     * PUT /api/v1/todos/:id: the to-do found by id is updated in place as
     * ApplyUpdate says, even when the request is then rejected; nothing else changes.
     */
    method Update(idParam: JsValue, title: JsValue, completed: JsValue) returns (r: Result<Todo, TodoError>)
      requires Valid()
      modifies todos
      ensures Valid()
      ensures IndexOfId(todos, ToNumberOrNull(idParam)) < 0 ==>
        r == Failure(NotFound) && forall t :: t in todos ==> unchanged(t)
      ensures var i := IndexOfId(todos, ToNumberOrNull(idParam));
        i >= 0 ==>
          && (forall t :: t in todos && t != todos[i] ==> unchanged(t))
          && Fields(todos[i]) == ApplyUpdate(old(Fields(todos[i])), title, completed).0
          && var err := ApplyUpdate(old(Fields(todos[i])), title, completed).1;
             r == if err.Some? then Failure(err.value) else Success(todos[i])
    {
      var i := IndexOfId(todos, ToNumberOrNull(idParam));
      if i < 0 {
        return Failure(NotFound);
      }
      var todo := todos[i];
      if !title.Undefined? {
        if !ValidTitle(title) {
          return Failure(TitleInvalid);
        }
        todo.title := Trim(title.s);
      }
      if !completed.Undefined? {
        if !completed.Bool? {
          return Failure(CompletedNotBoolean);
        }
        todo.completed := completed.b;
      }
      r := Success(todo);
    }

    /** DELETE /api/v1/todos/:id: keep the to-dos with other ids; not found when none was removed. */
    method Delete(idParam: JsValue) returns (r: Result<(), TodoError>)
      requires Valid()
      modifies this
      ensures Valid()
      ensures todos == WithoutId(old(todos), ToNumberOrNull(idParam)) && nextTodoId == old(nextTodoId)
      ensures r == Failure(NotFound) <==> todos == old(todos)
      ensures r.Success? ==> |todos| == |old(todos)| - 1
      ensures r.Success? || r == Failure(NotFound)
    {
      var id := ToNumberOrNull(idParam);
      var initialLength := |todos|;
      WithoutIdKeepsOrder(todos, id);
      WithoutIdContents(todos, id);
      if IndexOfId(todos, id) >= 0 {
        DeleteRemovesOne(todos, id);
      }
      var remaining := WithoutId(todos, id);
      if |remaining| == initialLength {
        assert remaining == todos by { WithoutIdUnchanged(todos, id); }
        todos := remaining;
        return Failure(NotFound);
      }
      todos := remaining;
      r := Success(());
    }
  }

  /** Filtering out an id that no to-do has returns the list itself. */
  lemma {:induction false} WithoutIdUnchanged(ts: seq<Todo>, id: Option<real>)
    requires IndexOfId(ts, id) < 0
    ensures WithoutId(ts, id) == ts
  {
    if ts != [] {
      WithoutIdUnchanged(ts[1..], id);
      assert ts == [ts[0]] + ts[1..];
    }
  }
}
