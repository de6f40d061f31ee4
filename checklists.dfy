/** The checklist page (pages/Checklists.jsx): the user's task list, the completion
    percentage, and the add, toggle and delete actions with their optimistic update
    and revert. Server replies are inputs of the actions; the request made is part of
    what an action returns. */
module Checklists {
  import opened Common
  import opened Text

  datatype Item = Item(id: int, text: string, done: bool)

  /** The `done` field of a server row as JavaScript sees it: absent (`undefined` or
      `null`), a number (SQLite stores 0 or 1), or a boolean. */
  datatype RawDone = Absent | Num(n: int) | Flag(b: bool)

  datatype RawItem = RawItem(id: int, text: string, done: RawDone)

  /** `!!Number(done)`. */
  function NormalizeDone(d: RawDone): (b: bool)
    ensures d.Num? ==> (b <==> d.n != 0)
    ensures d.Flag? ==> b == d.b
    ensures d == Absent ==> !b
  {
    match d
    case Absent => false
    case Num(n) => n != 0
    case Flag(b) => b
  }

  /** A loaded row; its `done` is true exactly for a non-zero number or `true`. */
  function Normalize(r: RawItem): (it: Item)
    ensures it.id == r.id && it.text == r.text
    ensures r.done == Num(0) || r.done == Num(1) ==> (it.done <==> r.done == Num(1))
  {
    Item(r.id, r.text, NormalizeDone(r.done))
  }

  function NormalizeAll(rows: seq<RawItem>): (r: seq<Item>)
    ensures |r| == |rows|
    ensures forall i :: 0 <= i < |rows| ==> r[i] == Normalize(rows[i])
  {
    seq(|rows|, i requires 0 <= i < |rows| => Normalize(rows[i]))
  }

  predicate IsDone(i: Item) { i.done }

  /** `items.filter(i => i.done).length` */
  function DoneCount(items: seq<Item>): (n: nat)
    ensures n <= |items|
  {
    |Filter(items, IsDone)|
  }

  /** `Math.round(done / total * 100)` on integers: the nearest whole percentage,
      halves rounded up. */
  function RoundedPercent(done: int, total: int): (p: int)
    requires 0 <= done <= total && 0 < total
    ensures 0 <= p <= 100
    ensures -total <= 2 * (100 * done - p * total) < total
  {
    var a, b := 200 * done + total, 2 * total;
    var q, r := a / b, a % b;
    DivisionFacts(a, b);
    var m := q * total;
    assert b * q == 2 * m;
    assert 2 * (100 * done - m) == r - total;
    BoundByProduct(q, total);
    q
  }

  lemma DivisionFacts(a: int, b: int)
    requires b > 0
    ensures a == b * (a / b) + a % b && 0 <= a % b < b
  {
  }

  /** A multiple `q * t` of a positive `t` that is at most `100.5 * t` has `q <= 100`;
      one that is above `-t / 2` has `q >= 0`. */
  lemma BoundByProduct(q: int, t: int)
    requires t > 0
    ensures 2 * (q * t) <= 201 * t ==> q <= 100
    ensures 2 * (q * t) > -t ==> q >= 0
  {
    if q > 100 {
      assert q * t >= 101 * t;
    }
    if q < 0 {
      assert q * t <= -t;
    }
  }

  /** `progress`: 0 for an empty list, otherwise the rounded percentage of items done. */
  function Progress(items: seq<Item>): (p: int)
    ensures 0 <= p <= 100
    ensures items == [] ==> p == 0
  {
    if items == [] then 0 else RoundedPercent(DoneCount(items), |items|)
  }

  /** The map of `toggleItem` that gives each item with `id` the `done` value
      `f(item)`; the optimistic flip, the server confirmation and the revert are
      all of this form. */
  function MapDone(items: seq<Item>, id: int, f: Item -> bool): (r: seq<Item>)
    ensures |r| == |items|
    ensures forall i :: 0 <= i < |items| ==>
      r[i] == if items[i].id == id then items[i].(done := f(items[i])) else items[i]
  {
    seq(|items|, i requires 0 <= i < |items| =>
      if items[i].id == id then items[i].(done := f(items[i])) else items[i])
  }

  function Flipped(i: Item): bool { !i.done }

  /** The optimistic update: `done` flipped on the items with `id`. */
  function FlipDone(items: seq<Item>, id: int): seq<Item>
  {
    MapDone(items, id, Flipped)
  }

  /** The revert: `done` set back to `value` on the items with `id`. */
  function SetDone(items: seq<Item>, id: int, value: bool): seq<Item>
  {
    MapDone(items, id, _ => value)
  }

  /** The body of the fallback `PUT /checklists/:id`: `it.done ? 0 : 1`. */
  function FallbackDone(it: Item): (v: int)
    ensures v == 0 || v == 1
    ensures v == 1 <==> !it.done
  {
    if it.done then 0 else 1
  }

  /** A reply of the server: a row (its `done` field), or an error status. */
  datatype Reply = Ok(done: RawDone) | Failed(status: int)

  const NotFound := 404

  /** The confirmation map: `!!Number(updated.done ?? (i.done ? 1 : 0))`, where `i` is
      the item as the optimistic update left it. */
  function Confirm(items: seq<Item>, id: int, d: RawDone): (r: seq<Item>)
    ensures |r| == |items|
    ensures forall i :: 0 <= i < |items| && items[i].id != id ==> r[i] == items[i]
    ensures forall i :: 0 <= i < |items| ==> r[i].id == items[i].id && r[i].text == items[i].text
    ensures forall i :: 0 <= i < |items| && items[i].id == id ==>
      r[i].done == if d == Absent then items[i].done else NormalizeDone(d)
    ensures d == Absent ==> r == items
  {
    MapDone(items, id, (i: Item) => if d == Absent then i.done else NormalizeDone(d))
  }

  /** The list after `toggleItem(id)` has run to the end: `first` is the reply of the
      toggle route, `fallback` that of the fallback update, sent only when the first
      reply is a 404. */
  function Toggled(items: seq<Item>, id: int, first: Reply, fallback: Reply): (r: seq<Item>)
    ensures |r| == |items|
    ensures forall i :: 0 <= i < |items| && items[i].id != id ==> r[i] == items[i]
    ensures forall i :: 0 <= i < |items| ==> r[i].id == items[i].id && r[i].text == items[i].text
  {
    match FindBy(items, ItemId, id)
    case None => items
    case Some(it) =>
      var optimistic := FlipDone(items, id);
      var reply := if first.Failed? && first.status == NotFound then fallback else first;
      match reply
      case Ok(d) => Confirm(optimistic, id, d)
      case Failed(_) => SetDone(optimistic, id, it.done)
  }

  /** `Array.isArray(res.data) ? ... : []` when the list arrives. */
  datatype LoadReply = Rows(rows: seq<RawItem>) | NotAList | LoadFailed

  /** The creation reply of `addItem`: the stored row, or an error status with the
      server's message, if any. */
  datatype AddReply = Created(row: RawItem) | AddFailed(status: int, message: Option<string>)

  const LoadError := "Erro ao carregar checklists. Veja console (F12)."
  const SignInToAdd := "Faça login para adicionar tarefas."
  const AddError := "Erro ao adicionar item."
  const SessionInvalid := "Sessão inválida. Faça login novamente."
  const ToggleError := "Não foi possível atualizar o item (veja console)."
  const DeleteError := "Não foi possível excluir (veja console)."

  /** The error `addItem` shows for a failed request. */
  function AddFailureMessage(status: int, message: Option<string>): (m: string)
    ensures status == 401 ==> m == SessionInvalid
    ensures status != 401 && message.Some? && message.value != [] ==> m == message.value
    ensures status != 401 && (message.None? || message.value == []) ==> m == AddError
  {
    if status == 401 then SessionInvalid
    else if message.Some? && message.value != [] then message.value
    else AddError
  }

  function ItemId(i: Item): int { i.id }

  // ---------------------------------------------------------------- properties

  /** The percentage shows 100 exactly when at most half a percent of the items is
      left undone, and 0 exactly when less than half a percent is done; so a complete
      list shows 100 and an untouched one 0, but 199 done out of 200 shows 100 too. */
  lemma {:induction false} RoundedPercentExtremes(done: int, total: int)
    requires 0 <= done <= total && 0 < total
    ensures RoundedPercent(done, total) == 100 <==> 200 * (total - done) <= total
    ensures RoundedPercent(done, total) == 0 <==> 200 * done < total
  {
    var p := RoundedPercent(done, total);
    var m := p * total;
    assert -total <= 2 * (100 * done - m) < total;
    if p < 100 {
      ScaleCompare(p, 99, total);
    } else {
      assert m == 100 * total;
    }
    if p > 0 {
      ScaleCompare(p, 1, total);
    } else {
      assert m == 0;
    }
  }

  lemma ScaleCompare(p: int, k: int, t: int)
    requires t > 0
    ensures p <= k ==> p * t <= k * t
    ensures p >= k ==> p * t >= k * t
  {
  }

  /** Progress is 100 when every item is done and 0 when none is. */
  lemma ProgressExtremes(items: seq<Item>)
    requires items != []
    ensures (forall i :: 0 <= i < |items| ==> items[i].done) ==> Progress(items) == 100
    ensures (forall i :: 0 <= i < |items| ==> !items[i].done) ==> Progress(items) == 0
  {
    RoundedPercentExtremes(DoneCount(items), |items|);
    if forall i :: 0 <= i < |items| ==> items[i].done {
      FilterKeepsAll(items, IsDone);
    }
    if forall i :: 0 <= i < |items| ==> !items[i].done {
      assert Filter(items, IsDone) == [];
    }
  }

  /** Progress is the percentage of done items rounded to the nearest integer, with
      halves rounded up: `2 * |100 * done - p * total| <= total`. */
  lemma ProgressRounds(items: seq<Item>)
    requires items != []
    ensures var d, t, p := DoneCount(items), |items|, Progress(items);
      -t <= 2 * (100 * d - p * t) < t
  {
  }

  /** Toggling an id that is not in the list changes nothing. */
  lemma ToggleUnknownUnchanged(items: seq<Item>, id: int, first: Reply, fallback: Reply)
    requires forall i :: 0 <= i < |items| ==> items[i].id != id
    ensures Toggled(items, id, first, fallback) == items
  {
  }

  /** The optimistic flip changes only the items with `id`, and only their `done`. */
  lemma FlipOnlyTarget(items: seq<Item>, id: int)
    ensures |FlipDone(items, id)| == |items|
    ensures forall i :: 0 <= i < |items| ==>
      FlipDone(items, id)[i].id == items[i].id && FlipDone(items, id)[i].text == items[i].text &&
      (FlipDone(items, id)[i].done <==> (items[i].done != (items[i].id == id)))
  {
  }

  /** Flip followed by the revert restores the list, when the items with `id` all
      share the `done` value of the one `find` returned (always so when ids are
      unique). */
  lemma FlipRevertRestores(items: seq<Item>, id: int, value: bool)
    requires forall i :: 0 <= i < |items| && items[i].id == id ==> items[i].done == value
    ensures SetDone(FlipDone(items, id), id, value) == items
  {
    var r := SetDone(FlipDone(items, id), id, value);
    assert forall i :: 0 <= i < |items| ==> r[i] == items[i];
  }

  /** The row the back end stores for an item, its `done` as 0 or 1. */
  function Stored(it: Item): RawItem
  {
    RawItem(it.id, it.text, Num(if it.done then 1 else 0))
  }

  /** Items stored by the back end load back unchanged. */
  lemma StoredRowsLoadBack(items: seq<Item>)
    ensures NormalizeAll(seq(|items|, i requires 0 <= i < |items| => Stored(items[i]))) == items
  {
    var rows := seq(|items|, i requires 0 <= i < |items| => Stored(items[i]));
    forall i | 0 <= i < |items|
      ensures NormalizeAll(rows)[i] == items[i]
    {
      assert rows[i] == Stored(items[i]);
    }
  }

  /** A failed toggle, whether it failed on the first route or on the fallback,
      leaves the list as it was; a confirmed toggle leaves the flip in place unless
      the server reports otherwise. */
  lemma ToggleOutcomes(items: seq<Item>, id: int, first: Reply, fallback: Reply)
    requires forall i, j :: 0 <= i < j < |items| ==> items[i].id != items[j].id
    ensures var reply := if first == Failed(NotFound) then fallback else first;
      reply.Failed? ==> Toggled(items, id, first, fallback) == items
    ensures var reply := if first == Failed(NotFound) then fallback else first;
      reply == Ok(Absent) ==> Toggled(items, id, first, fallback) == FlipDone(items, id)
  {
    match FindBy(items, ItemId, id)
    case None =>
    case Some(it) =>
      var k :| 0 <= k < |items| && items[k] == it;
      FlipRevertRestores(items, id, it.done);
      var reply := if first == Failed(NotFound) then fallback else first;
  }

  // ---------------------------------------------------------------- component

  /** The state of the Checklists page. */
  class ChecklistPage {
    var items: seq<Item>
    var newItem: string
    var error: Option<string>

    constructor ()
      ensures items == [] && newItem == [] && error == None
    {
      items, newItem, error := [], [], None;
    }

    /** The loading effect. */
    method Load(signedIn: bool, reply: LoadReply)
      modifies this
      ensures !signedIn ==> items == [] && error == old(error)
      ensures signedIn && reply.Rows? ==> items == NormalizeAll(reply.rows) && error == None
      ensures signedIn && reply.NotAList? ==> items == [] && error == None
      ensures signedIn && reply.LoadFailed? ==> items == old(items) && error == Some(LoadError)
      ensures newItem == old(newItem)
    {
      if !signedIn {
        items := [];
        return;
      }
      error := None;
      match reply
      case Rows(rows) => items := NormalizeAll(rows);
      case NotAList => items := [];
      case LoadFailed => error := Some(LoadError);
    }

    /** `addItem`; `sent` is the text of the `POST /checklists` request, if one is made. */
    method AddItem(signedIn: bool, reply: AddReply) returns (sent: Option<string>)
      modifies this
      ensures !signedIn ==>
        sent == None && items == old(items) && newItem == old(newItem) && error == Some(SignInToAdd)
      ensures signedIn && AllSpace(old(newItem)) ==>
        sent == None && items == old(items) && newItem == old(newItem) && error == None
      ensures signedIn && !AllSpace(old(newItem)) ==> sent == Some(Trim(old(newItem)))
      ensures sent.Some? && reply.Created? ==>
        items == [Normalize(reply.row)] + old(items) && newItem == [] && error == None
      ensures sent.Some? && reply.AddFailed? ==>
        items == old(items) && newItem == old(newItem) &&
        error == Some(AddFailureMessage(reply.status, reply.message))
    {
      error := None;
      sent := None;
      if !signedIn {
        error := Some(SignInToAdd);
        return;
      }
      TrimEmptyIffAllSpace(newItem);
      if Trim(newItem) == [] {
        return;
      }
      sent := Some(Trim(newItem));
      match reply
      case Created(row) =>
        items := [Normalize(row)] + items;
        newItem := [];
      case AddFailed(status, message) =>
        error := Some(AddFailureMessage(status, message));
    }

    /** `toggleItem(id)`; `fallbackBody` is the `done` sent by the fallback request,
        if it is made. */
    method ToggleItem(id: int, first: Reply, fallback: Reply) returns (fallbackBody: Option<int>)
      modifies this
      ensures items == Toggled(old(items), id, first, fallback)
      ensures FindBy(old(items), ItemId, id).None? ==> fallbackBody == None && error == None
      ensures FindBy(old(items), ItemId, id).Some? ==>
        fallbackBody == (if first == Failed(NotFound) then Some(FallbackDone(FindBy(old(items), ItemId, id).value)) else None)
      ensures FindBy(old(items), ItemId, id).Some? ==>
        (error == None <==> (if first == Failed(NotFound) then fallback else first).Ok?)
      ensures error.Some? ==> error == Some(ToggleError)
      ensures newItem == old(newItem)
    {
      error := None;
      fallbackBody := None;
      var found := FindBy(items, ItemId, id);
      if found.None? {
        return;
      }
      var it := found.value;
      items := FlipDone(items, id);
      var reply := first;
      if first == Failed(NotFound) {
        fallbackBody := Some(FallbackDone(it));
        reply := fallback;
      }
      match reply
      case Ok(d) => items := Confirm(items, id, d);
      case Failed(_) =>
        error := Some(ToggleError);
        items := SetDone(items, id, it.done);
    }

    /** `deleteItem(id)`; nothing happens unless the user confirms. */
    method DeleteItem(id: int, confirmed: bool, deleted: bool)
      modifies this
      ensures !confirmed ==> items == old(items) && error == old(error)
      ensures confirmed && deleted ==> items == RemoveKey(old(items), ItemId, id) && error == None
      ensures confirmed && !deleted ==> items == old(items) && error == Some(DeleteError)
      ensures newItem == old(newItem)
    {
      if !confirmed {
        return;
      }
      error := None;
      if deleted {
        items := RemoveKey(items, ItemId, id);
      } else {
        error := Some(DeleteError);
      }
    }
  }
}
