/**
  The Rust dispatch table of handle_messages!: one slot for each message id, filled in listing
  order, whose handler first checks that the message has the type it was registered for.
 */
module DispatchTable {

  type Type = nat
  type Handler = nat

  datatype Option<T> = None | Some(value: T)

  datatype Entry = Entry(kind: Type, handler: Handler)

  const Slots: nat := 1024

  type Id = i: int | 0 <= i < 1024

  /** The slot's content once every entry has been written: the last entry with that id. */
  function Slot(id: Type -> Id, list: seq<Entry>, i: Id): Option<Entry> {
    if list == [] then None
    else if id(list[|list| - 1].kind) == i then Some(list[|list| - 1])
    else Slot(id, list[..|list| - 1], i)
  }

  /** Build the table once, writing the entries in order. */
  method BuildTable(id: Type -> Id, list: seq<Entry>) returns (table: seq<Option<Entry>>)
    ensures |table| == Slots && forall i: Id :: table[i] == Slot(id, list, i)
  {
    table := seq(Slots, _ => None);
    for k := 0 to |list|
      invariant |table| == Slots && forall i: Id :: table[i] == Slot(id, list[..k], i)
    {
      table := table[id(list[k].kind) := Some(list[k])];
      assert list[..k + 1][..k] == list[..k];
    }
    assert list[..|list|] == list;
  }

  /** The handler that runs for a message of type `t`; None drops it. */
  function Route(id: Type -> Id, list: seq<Entry>, t: Type): Option<Handler> {
    match Slot(id, list, id(t))
    case None => None
    case Some(e) => if e.kind == t then Some(e.handler) else None
  }

  method ProcessMessage(id: Type -> Id, ghost list: seq<Entry>, table: seq<Option<Entry>>, t: Type)
    returns (h: Option<Handler>)
    requires |table| == Slots && forall i: Id :: table[i] == Slot(id, list, i)
    ensures h == Route(id, list, t)
  {
    var slot := table[id(t)];
    if slot.Some? && slot.value.kind == t { h := Some(slot.value.handler); } else { h := None; }
  }

  lemma {:induction false} SlotIsListed(id: Type -> Id, list: seq<Entry>, i: Id)
    ensures Slot(id, list, i).Some? ==> Slot(id, list, i).value in list && id(Slot(id, list, i).value.kind) == i
    ensures Slot(id, list, i).None? ==> forall e :: e in list ==> id(e.kind) != i
  {
    if list != [] {
      SlotIsListed(id, list[..|list| - 1], i);
      assert forall e :: e in list ==> e in list[..|list| - 1] || e == list[|list| - 1];
    }
  }

  /** A message never reaches a handler registered for another type. */
  lemma NeverWrongHandler(id: Type -> Id, list: seq<Entry>, t: Type)
    ensures Route(id, list, t).Some? ==> Entry(t, Route(id, list, t).value) in list
  {
    SlotIsListed(id, list, id(t));
  }

  /** Each type is listed once. */
  ghost predicate OnceEach(list: seq<Entry>) {
    forall e, f :: e in list && f in list && e.kind == f.kind ==> e == f
  }

  ghost predicate AllRouted(id: Type -> Id, list: seq<Entry>) {
    forall e :: e in list ==> Route(id, list, e.kind) == Some(e.handler)
  }

  ghost predicate DistinctIds(id: Type -> Id, list: seq<Entry>) {
    forall e, f :: e in list && f in list && id(e.kind) == id(f.kind) ==> e.kind == f.kind
  }

  /** Every listed type reaches its handler exactly when the listed types have distinct ids; with a shared
      id, messages of all but the last type are dropped. */
  lemma AllRoutedIff(id: Type -> Id, list: seq<Entry>)
    requires OnceEach(list)
    ensures AllRouted(id, list) <==> DistinctIds(id, list)
  {
    if DistinctIds(id, list) {
      forall e | e in list ensures Route(id, list, e.kind) == Some(e.handler) { SlotIsListed(id, list, id(e.kind)); }
    }
    if AllRouted(id, list) {
      forall e, f | e in list && f in list && id(e.kind) == id(f.kind) ensures e.kind == f.kind {
        assert Route(id, list, e.kind).Some? && Route(id, list, f.kind).Some?;
      }
    }
  }
}
