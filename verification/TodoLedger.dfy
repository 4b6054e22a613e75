/** The orchestrator's todo ledger: `TodoStore`, the two ledger tools and the harness's auto-advance. */
module TodoLedger {

  datatype Status = Pending | InProgress | Completed | VerifyFailed

  datatype TodoItem = TodoItem(id: string, content: string, status: Status)

  /** The ledger as its readers see it: the rows in insertion order. */
  type Rows = seq<TodoItem>

  predicate Terminal(s: Status) {
    s == Completed || s == VerifyFailed
  }

  predicate Unfinished(s: Status) {
    s == Pending || s == InProgress
  }

  ghost predicate Distinct(rows: Rows) {
    forall i, j :: 0 <= i < j < |rows| ==> rows[i].id != rows[j].id
  }

  /** Position of `id` in the ledger, or the row count when it is absent. */
  function Find(rows: Rows, id: string): (k: nat)
    ensures k <= |rows|
    ensures k < |rows| ==> rows[k].id == id
    ensures forall i :: 0 <= i < k ==> rows[i].id != id
  {
    if rows == [] || rows[0].id == id then 0 else 1 + Find(rows[1..], id)
  }

  predicate Has(rows: Rows, id: string) {
    Find(rows, id) < |rows|
  }

  function StatusOf(rows: Rows, id: string): Status
    requires Has(rows, id)
  {
    rows[Find(rows, id)].status
  }

  /** A row is found exactly at its only position. */
  lemma FindUnique(rows: Rows, k: nat)
    requires Distinct(rows) && k < |rows|
    ensures Find(rows, rows[k].id) == k
  {
    assert Find(rows, rows[k].id) <= k;
  }

  // ---------- replace ----------

  /** One registration: a repeated id keeps its position and takes the new value. */
  function Put(rows: Rows, t: TodoItem): Rows {
    if Has(rows, t.id) then rows[Find(rows, t.id) := t] else rows + [t]
  }

  function PutAll(todos: seq<TodoItem>): Rows {
    if todos == [] then [] else Put(PutAll(todos[..|todos| - 1]), todos[|todos| - 1])
  }

  lemma PutKeepsDistinct(rows: Rows, t: TodoItem)
    requires Distinct(rows)
    ensures Distinct(Put(rows, t))
  {
  }

  lemma {:induction false} PutAllDistinct(todos: seq<TodoItem>)
    ensures Distinct(PutAll(todos))
  {
    if todos != [] {
      PutAllDistinct(todos[..|todos| - 1]);
      PutKeepsDistinct(PutAll(todos[..|todos| - 1]), todos[|todos| - 1]);
    }
  }

  /** `t` is the last of `todos` carrying its id. */
  ghost predicate LastWithId(todos: seq<TodoItem>, t: TodoItem) {
    exists k :: 0 <= k < |todos| && todos[k] == t && forall j :: k < j < |todos| ==> todos[j].id != t.id
  }

  lemma LastWithIdExtends(todos: seq<TodoItem>, t: TodoItem, row: TodoItem)
    requires row == t || (LastWithId(todos, row) && row.id != t.id)
    ensures LastWithId(todos + [t], row)
  {
    var more := todos + [t];
    if row == t {
      assert more[|todos|] == row;
    } else {
      var i :| 0 <= i < |todos| && todos[i] == row && forall j :: i < j < |todos| ==> todos[j].id != row.id;
      assert more[i] == row;
    }
  }

  lemma PutRow(rows: Rows, t: TodoItem, k: nat)
    requires Distinct(rows) && k < |Put(rows, t)|
    ensures Put(rows, t)[k] == t || (k < |rows| && Put(rows, t)[k] == rows[k] && rows[k].id != t.id)
  {
  }

  lemma {:induction false} PutAllLastValue(todos: seq<TodoItem>, k: nat)
    requires k < |PutAll(todos)|
    ensures LastWithId(todos, PutAll(todos)[k])
  {
    hide Put, LastWithId, Distinct;
    var n := |todos| - 1;
    var rest, t := todos[..n], todos[n];
    PutAllDistinct(rest);
    PutRow(PutAll(rest), t, k);
    if PutAll(todos)[k] != t {
      PutAllLastValue(rest, k);
    }
    LastWithIdExtends(rest, t, PutAll(todos)[k]);
    assert todos == rest + [t];
  }

  lemma {:induction false} PutAllHasAll(todos: seq<TodoItem>, id: string)
    ensures Has(PutAll(todos), id) <==> Has(todos, id)
  {
    if todos != [] {
      var n := |todos| - 1;
      var rest, t := todos[..n], todos[n];
      PutAllHasAll(rest, id);
      assert todos == rest + [t];
      FindAppend(rest, t, id);
      var before := PutAll(rest);
      if Has(before, t.id) {
        FindUpdate(before, Find(before, t.id), t, id);
      } else {
        FindAppend(before, t, id);
      }
    }
  }

  lemma {:induction false} FindAppend(rows: Rows, t: TodoItem, id: string)
    ensures Find(rows + [t], id) == if Has(rows, id) then Find(rows, id)
                                    else if t.id == id then |rows| else |rows| + 1
  {
    var s := rows + [t];
    if rows == [] {
      assert s[1..] == [];
    } else if rows[0].id != id {
      assert s[1..] == rows[1..] + [t];
      FindAppend(rows[1..], t, id);
    }
  }

  lemma {:induction false} FindUpdate(rows: Rows, k: nat, t: TodoItem, id: string)
    requires k < |rows| && rows[k].id == t.id
    ensures Find(rows[k := t], id) == Find(rows, id)
  {
    var s := rows[k := t];
    if rows[0].id != id {
      if k == 0 {
        assert s[1..] == rows[1..];
      } else {
        assert s[1..] == rows[1..][k - 1 := t];
        FindUpdate(rows[1..], k - 1, t, id);
      }
    }
  }

  lemma {:induction false} PutAllFirstPosition(todos: seq<TodoItem>, j: nat, k: nat)
    requires j < k < |PutAll(todos)|
    ensures Find(todos, PutAll(todos)[j].id) < Find(todos, PutAll(todos)[k].id)
  {
    var n := |todos| - 1;
    var rest, t := todos[..n], todos[n];
    var before, rows := PutAll(rest), PutAll(todos);
    assert todos == rest + [t];
    FindAppend(rest, t, rows[j].id);
    FindAppend(rest, t, rows[k].id);
    assert rows[j].id == before[j].id;
    PutAllHasAll(rest, before[j].id);
    PutAllHasAll(rest, rows[k].id);
    assert Has(before, before[j].id) by { assert before[j].id == before[j].id; FindHit(before, j); }
    if k < |before| {
      assert rows[k].id == before[k].id;
      FindHit(before, k);
      PutAllFirstPosition(rest, j, k);
    }
  }

  lemma FindHit(rows: Rows, k: nat)
    requires k < |rows|
    ensures Has(rows, rows[k].id)
  {
  }

  /** Registering a list: "first position, last value" for every id, and no other row. */
  lemma FirstPositionLastValue(todos: seq<TodoItem>)
    ensures var rows := PutAll(todos);
            && Distinct(rows)
            && (forall id :: Has(rows, id) <==> Has(todos, id))
            && (forall k :: 0 <= k < |rows| ==> LastWithId(todos, rows[k]))
            && (forall j, k :: 0 <= j < k < |rows| ==> Find(todos, rows[j].id) < Find(todos, rows[k].id))
  {
    PutAllDistinct(todos);
    var rows := PutAll(todos);
    forall id ensures Has(rows, id) <==> Has(todos, id) {
      PutAllHasAll(todos, id);
    }
    forall k | 0 <= k < |rows| ensures LastWithId(todos, rows[k]) {
      PutAllLastValue(todos, k);
    }
    forall j, k | 0 <= j < k < |rows| ensures Find(todos, rows[j].id) < Find(todos, rows[k].id) {
      PutAllFirstPosition(todos, j, k);
    }
  }

  // ---------- the operations that reach the ledger ----------

  function TerminalIds(rows: Rows): seq<string> {
    if rows == [] then []
    else (if Terminal(rows[0].status) then [rows[0].id] else []) + TerminalIds(rows[1..])
  }

  predicate HasTerminal(rows: Rows) {
    exists k :: 0 <= k < |rows| && Terminal(rows[k].status)
  }

  lemma {:induction false} TerminalIdsEmpty(rows: Rows)
    ensures TerminalIds(rows) == [] <==> !HasTerminal(rows)
  {
    if rows != [] {
      TerminalIdsEmpty(rows[1..]);
      if k :| 0 <= k < |rows| && Terminal(rows[k].status) {
        assert k == 0 || rows[1..][k - 1] == rows[k];
      }
      if k :| 0 <= k < |rows[1..]| && Terminal(rows[1..][k].status) {
        assert rows[k + 1] == rows[1..][k];
      }
    }
  }

  function Marked(rows: Rows, id: string, s: Status): Rows {
    if Has(rows, id) then rows[Find(rows, id) := rows[Find(rows, id)].(status := s)] else rows
  }

  /** The harness may set any status except that it never takes a row out of `Completed`. */
  predicate Advances(rows: Rows, id: string, s: Status) {
    && Has(rows, id)
    && StatusOf(rows, id) != s
    && !(StatusOf(rows, id) == Completed && s != Completed)
  }

  function Advanced(rows: Rows, id: string, s: Status): Rows {
    if Advances(rows, id, s) then Marked(rows, id, s) else rows
  }

  /** Every way the program changes the ledger. */
  datatype Op =
    | WriteTodos(todos: seq<TodoItem>)
    | UpdateTodo(id: string, status: Status)
    | AutoAdvance(id: string, status: Status)
    | Reset

  function Apply(rows: Rows, op: Op): Rows {
    match op
    case WriteTodos(todos) => if HasTerminal(rows) then rows else PutAll(todos)
    case UpdateTodo(id, s) => if s == VerifyFailed then rows else Marked(rows, id, s)
    case AutoAdvance(id, s) => Advanced(rows, id, s)
    case Reset => []
  }

  function ApplyAll(rows: Rows, ops: seq<Op>): Rows
    decreases ops
  {
    if ops == [] then rows else ApplyAll(Apply(rows, ops[0]), ops[1..])
  }

  // ---------- counting ----------

  datatype TodoCounts = TodoCounts(pending: nat, inProgress: nat, completed: nat, verifyFailed: nat) {
    function Total(): nat { pending + inProgress + completed + verifyFailed }
    function Unfinished(): nat { pending + inProgress }
  }

  function CountIn(c: TodoCounts, s: Status): TodoCounts {
    match s
    case Pending => c.(pending := c.pending + 1)
    case InProgress => c.(inProgress := c.inProgress + 1)
    case Completed => c.(completed := c.completed + 1)
    case VerifyFailed => c.(verifyFailed := c.verifyFailed + 1)
  }

  function CountsOf(rows: Rows): TodoCounts {
    if rows == [] then TodoCounts(0, 0, 0, 0)
    else CountIn(CountsOf(rows[..|rows| - 1]), rows[|rows| - 1].status)
  }

  /** Where in the ledger the rows with status `s` stand. */
  function Positions(rows: Rows, s: Status): set<nat> {
    set k | 0 <= k < |rows| && rows[k].status == s
  }

  lemma PositionsStep(rows: Rows, s: Status)
    requires rows != []
    ensures var n := |rows| - 1;
            |Positions(rows, s)| == |Positions(rows[..n], s)| + if rows[n].status == s then 1 else 0
  {
    var n := |rows| - 1;
    assert Positions(rows, s) == Positions(rows[..n], s) + (if rows[n].status == s then {n} else {});
  }

  lemma NoPositions()
    ensures forall s :: Positions([], s) == {}
  {
  }

  /** Each count is the number of rows with that status. */
  ghost predicate CountsRows(c: TodoCounts, rows: Rows) {
    && c.pending == |Positions(rows, Pending)| && c.inProgress == |Positions(rows, InProgress)|
    && c.completed == |Positions(rows, Completed)| && c.verifyFailed == |Positions(rows, VerifyFailed)|
  }

  lemma {:induction false} CountsAreRows(rows: Rows)
    ensures CountsRows(CountsOf(rows), rows)
  {
    hide Positions;
    assert forall s :: Positions([], s) == {} by { NoPositions(); }
    if rows != [] {
      CountsAreRows(rows[..|rows| - 1]);
      PositionsStep(rows, Pending);
      PositionsStep(rows, InProgress);
      PositionsStep(rows, Completed);
      PositionsStep(rows, VerifyFailed);
    }
  }

  lemma {:induction false} CountsSumToRows(rows: Rows)
    ensures CountsOf(rows).Total() == |rows|
  {
    if rows != [] {
      CountsSumToRows(rows[..|rows| - 1]);
    }
  }

  ghost predicate AllTerminal(rows: Rows) {
    forall k :: 0 <= k < |rows| ==> Terminal(rows[k].status)
  }

  lemma AllTerminalStep(rows: Rows)
    requires rows != []
    ensures AllTerminal(rows) <==> AllTerminal(rows[..|rows| - 1]) && Terminal(rows[|rows| - 1].status)
  {
    var n := |rows| - 1;
    if AllTerminal(rows[..n]) && Terminal(rows[n].status) {
      forall k | 0 <= k < |rows| ensures Terminal(rows[k].status) {
        assert k < n ==> rows[..n][k] == rows[k];
      }
    }
  }

  /** The nudging's "nothing unfinished" is exactly "every row is terminal". */
  lemma {:induction false} NoneUnfinished(rows: Rows)
    ensures CountsOf(rows).Unfinished() == 0 <==> AllTerminal(rows)
  {
    if rows != [] {
      NoneUnfinished(rows[..|rows| - 1]);
      AllTerminalStep(rows);
      CountInUnfinished(CountsOf(rows[..|rows| - 1]), rows[|rows| - 1].status);
    }
  }

  lemma CountInUnfinished(c: TodoCounts, s: Status)
    ensures CountIn(c, s).Unfinished() == c.Unfinished() + if Terminal(s) then 0 else 1
  {
  }

  // ---------- laws of the operations ----------

  lemma MarkedRow(rows: Rows, id: string, s: Status)
    requires Distinct(rows)
    ensures Distinct(Marked(rows, id, s)) && |Marked(rows, id, s)| == |rows|
    ensures forall k :: 0 <= k < |rows| ==> Marked(rows, id, s)[k] == rows[k].(status := Marked(rows, id, s)[k].status)
    ensures forall k :: 0 <= k < |rows| && rows[k].id != id ==> Marked(rows, id, s)[k] == rows[k]
    ensures Has(rows, id) ==> Has(Marked(rows, id, s), id) && StatusOf(Marked(rows, id, s), id) == s
    ensures forall other :: other != id && Has(rows, other) ==>
              Has(Marked(rows, id, s), other) && StatusOf(Marked(rows, id, s), other) == StatusOf(rows, other)
  {
    var r := Marked(rows, id, s);
    if Has(rows, id) {
      FindUnique(r, Find(rows, id));
    }
    forall other | other != id && Has(rows, other)
      ensures Has(r, other) && StatusOf(r, other) == StatusOf(rows, other)
    {
      FindUnique(r, Find(rows, other));
    }
  }

  lemma MarkedTwice(rows: Rows, id: string, a: Status, b: Status)
    ensures Marked(Marked(rows, id, a), id, b) == Marked(rows, id, b)
  {
    if Has(rows, id) {
      FindUpdate(rows, Find(rows, id), rows[Find(rows, id)].(status := a), id);
    }
  }

  lemma MarkedStatus(rows: Rows, id: string, s: Status)
    requires Has(rows, id)
    ensures Has(Marked(rows, id, s), id) && StatusOf(Marked(rows, id, s), id) == s
  {
    FindUpdate(rows, Find(rows, id), rows[Find(rows, id)].(status := s), id);
  }

  predicate HasCompleted(rows: Rows, id: string) {
    Has(rows, id) && StatusOf(rows, id) == Completed
  }

  /** The harness moves a row to the wanted status, or leaves it completed. */
  lemma AdvancedIsMarked(rows: Rows, id: string, s: Status)
    ensures Advanced(rows, id, s) == Marked(rows, id, if HasCompleted(rows, id) then Completed else s)
  {
  }

  lemma ApplyKeepsDistinct(rows: Rows, op: Op)
    requires Distinct(rows)
    ensures Distinct(Apply(rows, op))
  {
    match op
    case WriteTodos(todos) => PutAllDistinct(todos);
    case UpdateTodo(id, s) => MarkedRow(rows, id, s);
    case AutoAdvance(id, s) => MarkedRow(rows, id, s);
    case Reset =>
  }

  lemma {:induction false} ApplyAllKeepsDistinct(rows: Rows, ops: seq<Op>)
    requires Distinct(rows)
    ensures Distinct(ApplyAll(rows, ops))
    decreases ops
  {
    if ops != [] {
      ApplyKeepsDistinct(rows, ops[0]);
      ApplyAllKeepsDistinct(Apply(rows, ops[0]), ops[1..]);
    }
  }

  /** A row leaves the ledger exactly by `reset`, or by an accepted re-registration that omits it. */
  lemma RowDroppedIff(rows: Rows, op: Op, id: string)
    requires Distinct(rows) && Has(rows, id)
    ensures !Has(Apply(rows, op), id) <==>
            || op.Reset?
            || (op.WriteTodos? && !HasTerminal(rows) && !Has(op.todos, id))
  {
    match op
    case WriteTodos(todos) =>
      PutAllHasAll(todos, id);
    case UpdateTodo(x, s) => MarkedRow(rows, x, s);
    case AutoAdvance(x, s) => MarkedRow(rows, x, s);
    case Reset =>
  }

  /** No single operation but `reset` drops a row that is terminal at that moment. */
  lemma TerminalRowKept(rows: Rows, op: Op, id: string)
    requires Distinct(rows) && Has(rows, id) && Terminal(StatusOf(rows, id))
    ensures Has(Apply(rows, op), id) <==> op != Reset
  {
    RowDroppedIff(rows, op, id);
    assert HasTerminal(rows);
  }

  /** `op` asks for a non-terminal status on `id`. */
  predicate Reopens(op: Op, id: string) {
    (op.UpdateTodo? || op.AutoAdvance?) && op.id == id && Unfinished(op.status)
  }

  /** A terminal row stays in the ledger, terminal, through any sequence that neither resets nor reopens it. */
  lemma {:induction false} TerminalRowSurvives(rows: Rows, ops: seq<Op>, id: string)
    requires Distinct(rows) && Has(rows, id) && Terminal(StatusOf(rows, id))
    requires forall k :: 0 <= k < |ops| ==> ops[k] != Reset && !Reopens(ops[k], id)
    ensures Has(ApplyAll(rows, ops), id) && Terminal(StatusOf(ApplyAll(rows, ops), id))
    decreases ops
  {
    if ops != [] {
      var op, next := ops[0], Apply(rows, ops[0]);
      TerminalRowKept(rows, op, id);
      ApplyKeepsDistinct(rows, op);
      if op.UpdateTodo? || op.AutoAdvance? {
        MarkedRow(rows, op.id, op.status);
      }
      assert Terminal(StatusOf(next, id)) by {
        assert op.WriteTodos? ==> HasTerminal(rows);
      }
      assert forall k :: 0 <= k < |ops[1..]| ==> ops[1..][k] == ops[k + 1];
      TerminalRowSurvives(next, ops[1..], id);
    }
  }

  /** Without that condition a terminal row can be lost: reopened by `update_todo`, then replaced. */
  lemma ReopenedRowCanBeLost(id: string, other: string, c: string)
    requires id != other
    ensures var rows := [TodoItem(id, c, Completed)];
            var ops := [UpdateTodo(id, Pending), WriteTodos([TodoItem(other, c, Pending)])];
            Distinct(rows) && Terminal(StatusOf(rows, id)) && !Has(ApplyAll(rows, ops), id)
  {
    var rows := [TodoItem(id, c, Completed)];
    var op0, op1 := UpdateTodo(id, Pending), WriteTodos([TodoItem(other, c, Pending)]);
    var mid := Apply(rows, op0);
    assert Find(rows, id) == 0;
    assert mid == [TodoItem(id, c, Pending)];
    assert !HasTerminal(mid);
    var todos := [TodoItem(other, c, Pending)];
    assert todos[..0] == [];
    assert PutAll(todos) == Put([], todos[0]) == todos;
    assert ApplyAll(rows, [op0, op1]) == ApplyAll(mid, [op1]) by { assert [op0, op1][1..] == [op1]; }
    assert ApplyAll(mid, [op1]) == todos by { assert [op1][1..] == []; }
  }

  /** No role holds `update_todo`, but the harness itself reopens a failed row when work on it starts again;
      the next registration then drops it. */
  lemma FailedRowCanBeLost(id: string, other: string, c: string)
    requires id != other
    ensures var rows, todos := [TodoItem(id, c, VerifyFailed)], [TodoItem(other, c, Pending)];
            && Distinct(rows) && Terminal(StatusOf(rows, id))
            && ApplyAll(rows, [AutoAdvance(id, InProgress), WriteTodos(todos)]) == todos && !Has(todos, id)
  {
    var rows, todos := [TodoItem(id, c, VerifyFailed)], [TodoItem(other, c, Pending)];
    var mid := [TodoItem(id, c, InProgress)];
    assert Find(rows, id) == 0;
    assert Apply(rows, AutoAdvance(id, InProgress)) == mid;
    assert todos[..0] == [] && PutAll(todos) == Put([], todos[0]) == todos;
    assert !HasTerminal(mid) && Apply(mid, WriteTodos(todos)) == todos;
    ApplyAllPair(rows, AutoAdvance(id, InProgress), WriteTodos(todos));
  }

  lemma ApplyAllPair(rows: Rows, a: Op, b: Op)
    ensures ApplyAll(rows, [a, b]) == Apply(Apply(rows, a), b)
  {
    hide Apply;
    assert [a, b][1..] == [b] && [b][1..] == [];
    var mid := Apply(rows, a);
    assert ApplyAll(rows, [a, b]) == ApplyAll(mid, [b]);
    assert ApplyAll(mid, [b]) == ApplyAll(Apply(mid, b), []);
  }

  lemma {:induction false} ApplyAllSum(rows: Rows, a: seq<Op>, b: seq<Op>)
    ensures ApplyAll(rows, a + b) == ApplyAll(ApplyAll(rows, a), b)
    decreases a
  {
    hide Apply;
    if a == [] {
      assert a + b == b;
    } else {
      assert (a + b)[1..] == a[1..] + b;
      ApplyAllSum(Apply(rows, a[0]), a[1..], b);
    }
  }

  /** Without `reset` and `update_todo` a completed row stays in the ledger, completed, whatever is advanced
      and registered. */
  lemma {:induction false} CompletedRowSurvives(rows: Rows, ops: seq<Op>, id: string)
    requires Distinct(rows) && HasCompleted(rows, id)
    requires forall k :: 0 <= k < |ops| ==> ops[k].AutoAdvance? || ops[k].WriteTodos?
    ensures HasCompleted(ApplyAll(rows, ops), id)
    decreases ops
  {
    hide Distinct, Has, Find;
    if ops != [] {
      var op := ops[0];
      ApplyKeepsDistinct(rows, op);
      if op.AutoAdvance? {
        AdvanceKeepsCompleted(rows, op.id, op.status, id);
      } else {
        TerminalRowKept(rows, op, id);
        TerminalFound(rows, id);
      }
      assert forall k :: 0 <= k < |ops[1..]| ==> ops[1..][k] == ops[k + 1];
      CompletedRowSurvives(Apply(rows, op), ops[1..], id);
    }
  }

  lemma TerminalFound(rows: Rows, id: string)
    requires Has(rows, id) && Terminal(StatusOf(rows, id))
    ensures HasTerminal(rows)
  {
  }

  /** Whatever the harness advances, a completed row stays completed. */
  lemma AdvanceKeepsCompleted(rows: Rows, id: string, s: Status, done: string)
    requires Distinct(rows) && Has(rows, done) && StatusOf(rows, done) == Completed
    ensures Has(Advanced(rows, id, s), done) && StatusOf(Advanced(rows, id, s), done) == Completed
  {
    MarkedRow(rows, id, s);
  }

  // ---------- the store ----------

  /** Order list and map agree exactly: same ids, each once, each under its own key. */
  ghost predicate Agree(items: map<string, TodoItem>, order: seq<string>) {
    && (forall i, j :: 0 <= i < j < |order| ==> order[i] != order[j])
    && (forall i :: 0 <= i < |order| ==> order[i] in items)
    && (forall id :: id in items ==> id in order && items[id].id == id)
  }

  function RowsOf(items: map<string, TodoItem>, order: seq<string>): Rows
    requires forall i :: 0 <= i < |order| ==> order[i] in items
  {
    seq(|order|, i requires 0 <= i < |order| => items[order[i]])
  }

  lemma AgreeFind(items: map<string, TodoItem>, order: seq<string>, id: string)
    requires Agree(items, order)
    ensures Distinct(RowsOf(items, order))
    ensures id in items <==> Has(RowsOf(items, order), id)
    ensures id in items ==> order[Find(RowsOf(items, order), id)] == id
  {
    var rows := RowsOf(items, order);
    assert forall k :: 0 <= k < |order| ==> rows[k].id == order[k];
    if id in items {
      var k :| 0 <= k < |order| && order[k] == id;
      FindUnique(rows, k);
    }
  }

  lemma AgreeOverwrite(items: map<string, TodoItem>, order: seq<string>, t: TodoItem)
    requires Agree(items, order) && t.id in items
    ensures Agree(items[t.id := t], order)
    ensures RowsOf(items[t.id := t], order) == Put(RowsOf(items, order), t)
  {
    AgreeFind(items, order, t.id);
  }

  lemma AgreeAppend(items: map<string, TodoItem>, order: seq<string>, t: TodoItem)
    requires Agree(items, order) && t.id !in items
    ensures Agree(items[t.id := t], order + [t.id])
    ensures RowsOf(items[t.id := t], order + [t.id]) == Put(RowsOf(items, order), t)
  {
    AgreeFind(items, order, t.id);
  }

  datatype Reply = Rejected | Summary(rows: Rows)

  class TodoStore {
    var items: map<string, TodoItem>
    var order: seq<string>

    ghost predicate Valid()
      reads this
    {
      Agree(items, order)
    }

    function ListItems(): (rows: Rows)
      reads this
      requires Valid()
      ensures Distinct(rows) && |rows| == |order|
    {
      assert Distinct(RowsOf(items, order)) by { AgreeFind(items, order, ""); }
      RowsOf(items, order)
    }

    constructor ()
      ensures Valid() && ListItems() == []
    {
      items, order := map[], [];
    }

    method Replace(todos: seq<TodoItem>) returns (ok: bool)
      requires Valid()
      modifies this
      ensures Valid()
      ensures ok <==> !HasTerminal(old(ListItems()))
      ensures ListItems() == if ok then PutAll(todos) else old(ListItems())
    {
      TerminalIdsEmpty(ListItems());
      if TerminalIds(ListItems()) != [] {
        return false;
      }
      items, order := map[], [];
      for i := 0 to |todos|
        invariant Valid()
        invariant ListItems() == PutAll(todos[..i])
      {
        var t := todos[i];
        assert todos[..i + 1][..i] == todos[..i];
        if t.id in items {
          AgreeOverwrite(items, order, t);
          items := items[t.id := t];
        } else {
          AgreeAppend(items, order, t);
          items := items[t.id := t];
          order := order + [t.id];
        }
      }
      assert todos[..|todos|] == todos;
      ok := true;
    }

    /** False stands for the `KeyError` of an unknown id. */
    method Update(id: string, status: Status) returns (known: bool)
      requires Valid()
      modifies this
      ensures Valid()
      ensures known <==> Has(old(ListItems()), id)
      ensures ListItems() == Marked(old(ListItems()), id, status)
    {
      AgreeFind(items, order, id);
      if id !in items {
        return false;
      }
      var updated := items[id].(status := status);
      AgreeOverwrite(items, order, updated);
      items := items[id := updated];
      known := true;
    }

    method Counts() returns (c: TodoCounts)
      requires Valid()
      ensures c == CountsOf(ListItems()) && CountsRows(c, ListItems())
      ensures c.Total() == |ListItems()|
    {
      ghost var rows := ListItems();
      c := TodoCounts(0, 0, 0, 0);
      for i := 0 to |order|
        invariant c == CountsOf(rows[..i])
      {
        assert rows[..i + 1][..i] == rows[..i];
        c := CountIn(c, items[order[i]].status);
      }
      assert rows[..|order|] == rows;
      CountsSumToRows(rows);
      CountsAreRows(rows);
    }

    method Reset()
      modifies this
      ensures Valid() && ListItems() == []
    {
      items, order := map[], [];
    }
  }

  /** The `write_todos` tool. */
  method WriteTodosTool(store: TodoStore, todos: seq<TodoItem>) returns (reply: Reply)
    requires store.Valid()
    modifies store
    ensures store.Valid() && store.ListItems() == Apply(old(store.ListItems()), WriteTodos(todos))
    ensures reply == if HasTerminal(old(store.ListItems())) then Rejected else Summary(store.ListItems())
  {
    var ok := store.Replace(todos);
    reply := if ok then Summary(store.ListItems()) else Rejected;
  }

  /** The `update_todo` tool: `VerifyFailed` is the harness's own status and is refused. */
  method UpdateTodoTool(store: TodoStore, id: string, status: Status) returns (reply: Reply)
    requires store.Valid()
    modifies store
    ensures store.Valid() && store.ListItems() == Apply(old(store.ListItems()), UpdateTodo(id, status))
    ensures reply == if status == VerifyFailed || !Has(old(store.ListItems()), id) then Rejected
                     else Summary(store.ListItems())
  {
    if status == VerifyFailed {
      return Rejected;
    }
    var known := store.Update(id, status);
    reply := if known then Summary(store.ListItems()) else Rejected;
  }

  /** `_auto_advance_todo` with a store and a task id at hand. */
  method AutoAdvanceTodo(store: TodoStore, id: string, status: Status) returns (moved: bool)
    requires store.Valid()
    modifies store
    ensures store.Valid() && store.ListItems() == Apply(old(store.ListItems()), AutoAdvance(id, status))
    ensures moved <==> Advances(old(store.ListItems()), id, status)
    ensures moved <==> store.ListItems() != old(store.ListItems())
  {
    var current := store.ListItems();
    if !Has(current, id) {
      return false;
    }
    var found := StatusOf(current, id);
    if found == status {
      return false;
    }
    if found == Completed && status != Completed {
      return false;
    }
    moved := store.Update(id, status);
  }
}
