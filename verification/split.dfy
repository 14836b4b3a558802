/**
 Reassembly of split messages: a long message travels as numbered parts in
 split-message containers, and `handleSplitMessage(id:total:part:payload:storage:)`
 collects them in one slot array per message id until every slot is filled.
 */
module SplitMessages {
  import opened Wire

  /** One slot per part of a message; empty until that part arrives. */
  type Slots = seq<Option<Bytes>>

  /** Messages being reassembled, by split-message id. */
  type Storage = map<u16, Slots>

  /** Every part has arrived. */
  predicate Complete(slots: Slots) {
    forall i :: 0 <= i < |slots| ==> slots[i].Some?
  }

  /** The parts in index order, joined. */
  function Concat(slots: Slots): Bytes
    requires Complete(slots)
    decreases |slots|
  {
    if |slots| == 0 then [] else slots[0].value + Concat(slots[1..])
  }

  /** `[Data?](repeating: nil, count: total)`. */
  function EmptySlots(total: nat): (slots: Slots)
    ensures |slots| == total
    ensures forall i :: 0 <= i < total ==> slots[i].None?
  {
    seq(total, _ => None)
  }

  /** The part is admissible: it indexes the group's slot array, or, for a
      new group, the array `total` slots long that is about to be made. The
      source traps otherwise. */
  predicate Fits(id: u16, total: nat, part: nat, storage: Storage) {
    if id in storage then part < |storage[id]| else part < total
  }

  /** The group's slots once the part is stored: an existing group keeps its
      length, whatever `total` says; a new group gets `total` empty slots. */
  function Place(id: u16, total: nat, part: nat, payload: Bytes, storage: Storage): (slots: Slots)
    requires Fits(id, total, part, storage)
    ensures |slots| == if id in storage then |storage[id]| else total
    ensures slots[part] == Some(payload)
    ensures forall i :: 0 <= i < |slots| && i != part ==>
              slots[i] == if id in storage then storage[id][i] else None
  {
    if id in storage then storage[id][part := Some(payload)]
    else EmptySlots(total)[part := Some(payload)]
  }

  /** The storage after a call, and the reassembled message if the call
      completed one. */
  datatype Outcome = Outcome(storage: Storage, message: Option<Bytes>)

  /** `handleSplitMessage`: stores the part; when every slot is filled,
      returns the parts joined and forgets the group, otherwise returns
      nothing and keeps it. Other groups are never touched. */
  function HandleSplitMessage(id: u16, total: nat, part: nat, payload: Bytes, storage: Storage): (r: Outcome)
    requires Fits(id, total, part, storage)
    ensures r.storage - {id} == storage - {id}
    ensures r.message.Some? <==> Complete(Place(id, total, part, payload, storage))
    ensures r.message.Some? ==> id !in r.storage && r.message.value == Concat(Place(id, total, part, payload, storage))
    ensures r.message.None? ==>
              && id in r.storage
              && |r.storage[id]| == (if id in storage then |storage[id]| else total)
              && r.storage[id][part] == Some(payload)
  {
    var slots := Place(id, total, part, payload, storage);
    var stored := storage[id := slots];
    if Complete(slots) then Outcome(stored - {id}, Some(Concat(slots)))
    else Outcome(stored, None)
  }

  /** A message in a single part completes on arrival and leaves the
      storage as it was. */
  lemma SinglePartCompletes(id: u16, payload: Bytes, storage: Storage)
    requires id !in storage
    ensures HandleSplitMessage(id, 1, 0, payload, storage) == Outcome(storage, Some(payload))
  {
    var slots := Place(id, 1, 0, payload, storage);
    assert slots == [Some(payload)];
    assert slots[1..] == [];
    assert Complete(slots);
    assert Concat(slots) == payload + Concat(slots[1..]);
    assert payload + [] == payload;
    assert storage[id := slots] - {id} == storage;
  }

  // ----- reassembly in any order -----

  /** `pieces` joined in order. */
  function Flatten(pieces: seq<Bytes>): Bytes
    decreases |pieces|
  {
    if |pieces| == 0 then [] else pieces[0] + Flatten(pieces[1..])
  }

  /** The slots of a message cut into `pieces` once the parts in `delivered`
      have arrived. */
  function Filled(pieces: seq<Bytes>, delivered: set<nat>): (slots: Slots)
    ensures |slots| == |pieces|
  {
    seq(|pieces|, i requires 0 <= i < |pieces| => if i in delivered then Some(pieces[i]) else None)
  }

  /** The part numbers an order names. */
  function Elems(order: seq<nat>): set<nat>
    decreases |order|
  {
    if |order| == 0 then {} else Elems(order[..|order| - 1]) + {order[|order| - 1]}
  }

  /** No part is named twice. */
  predicate Distinct(order: seq<nat>)
    decreases |order|
  {
    |order| == 0 || (Distinct(order[..|order| - 1]) && order[|order| - 1] !in Elems(order[..|order| - 1]))
  }

  predicate InRange(order: seq<nat>, n: nat) {
    forall i :: 0 <= i < |order| ==> order[i] < n
  }

  /** The parts of a message cut into `pieces`, delivered one call at a time
      in the order `order` names them. */
  function Deliver(id: u16, pieces: seq<Bytes>, order: seq<nat>, storage: Storage): (r: Outcome)
    requires InRange(order, |pieces|)
    requires id in storage ==> |storage[id]| == |pieces|
    ensures id in r.storage ==> |r.storage[id]| == |pieces|
    decreases |order|
  {
    if |order| == 0 then Outcome(storage, None)
    else
      var last := order[|order| - 1];
      var previous := Deliver(id, pieces, order[..|order| - 1], storage);
      HandleSplitMessage(id, |pieces|, last, pieces[last], previous.storage)
  }

  /** While some part is still missing, every call returns nothing and the
      group holds exactly the parts delivered so far. */
  lemma {:induction false} DeliverPartial(id: u16, pieces: seq<Bytes>, order: seq<nat>, storage: Storage, missing: nat)
    requires id !in storage
    requires InRange(order, |pieces|) && Distinct(order)
    requires missing < |pieces| && missing !in Elems(order)
    ensures Deliver(id, pieces, order, storage).message.None?
    ensures |order| > 0 ==> Deliver(id, pieces, order, storage).storage == storage[id := Filled(pieces, Elems(order))]
    ensures |order| == 0 ==> Deliver(id, pieces, order, storage).storage == storage
    decreases |order|
  {
    if |order| > 0 {
      var prefix := order[..|order| - 1];
      var last := order[|order| - 1];
      assert InRange(prefix, |pieces|);
      DeliverPartial(id, pieces, prefix, storage, missing);
      var previous := Deliver(id, pieces, prefix, storage);
      PlaceNext(id, pieces, prefix, last, storage, previous.storage);
      var slots := Filled(pieces, Elems(order));
      assert slots[missing].None?;
      Incomplete(id, |pieces|, last, pieces[last], previous.storage);
      assert previous.storage[id := slots] == storage[id := slots];
    }
  }

  /** A call that leaves a slot empty stores the slots and returns nothing. */
  lemma Incomplete(id: u16, total: nat, part: nat, payload: Bytes, storage: Storage)
    requires Fits(id, total, part, storage)
    requires !Complete(Place(id, total, part, payload, storage))
    ensures HandleSplitMessage(id, total, part, payload, storage)
            == Outcome(storage[id := Place(id, total, part, payload, storage)], None)
  {
  }

  /** Storing the next part into the slots of the parts before it. */
  lemma PlaceNext(id: u16, pieces: seq<Bytes>, prefix: seq<nat>, last: nat, storage: Storage, current: Storage)
    requires id !in storage && last < |pieces|
    requires |prefix| == 0 ==> current == storage
    requires |prefix| > 0 ==> current == storage[id := Filled(pieces, Elems(prefix))]
    ensures Fits(id, |pieces|, last, current)
    ensures Place(id, |pieces|, last, pieces[last], current) == Filled(pieces, Elems(prefix) + {last})
  {
    var slots := Place(id, |pieces|, last, pieces[last], current);
    var filled := Filled(pieces, Elems(prefix) + {last});
    forall i | 0 <= i < |pieces|
      ensures slots[i] == filled[i]
    {
    }
  }

  /** Every part delivered once, in any order, to a fresh id: the last call
      returns the whole message and the storage is as it was before. */
  lemma ReassembleAnyOrder(id: u16, pieces: seq<Bytes>, order: seq<nat>, storage: Storage)
    requires id !in storage && |order| > 0
    requires InRange(order, |pieces|) && Distinct(order)
    requires forall i :: 0 <= i < |pieces| ==> i in Elems(order)
    ensures Deliver(id, pieces, order, storage) == Outcome(storage, Some(Flatten(pieces)))
  {
    var prefix := order[..|order| - 1];
    var last := order[|order| - 1];
    assert InRange(prefix, |pieces|);
    DeliverPartial(id, pieces, prefix, storage, last);
    var previous := Deliver(id, pieces, prefix, storage);
    PlaceNext(id, pieces, prefix, last, storage, previous.storage);
    var slots := Place(id, |pieces|, last, pieces[last], previous.storage);
    ConcatFilled(pieces, Elems(order));
    Completes(id, |pieces|, last, pieces[last], previous.storage);
    assert previous.storage[id := slots] - {id} == storage;
  }

  /** A call that fills the last slot returns the joined parts and forgets
      the group. */
  lemma Completes(id: u16, total: nat, part: nat, payload: Bytes, storage: Storage)
    requires Fits(id, total, part, storage)
    requires Complete(Place(id, total, part, payload, storage))
    ensures var slots := Place(id, total, part, payload, storage);
            HandleSplitMessage(id, total, part, payload, storage) == Outcome(storage[id := slots] - {id}, Some(Concat(slots)))
  {
  }

  /** Slots filled from every piece join back into the pieces. */
  lemma ConcatFilled(pieces: seq<Bytes>, delivered: set<nat>)
    requires forall i :: 0 <= i < |pieces| ==> i in delivered
    ensures Complete(Filled(pieces, delivered))
    ensures Concat(Filled(pieces, delivered)) == Flatten(pieces)
  {
    assert Filled(pieces, delivered) == Wrap(pieces);
    ConcatWrap(pieces);
  }

  /** Every piece in a slot of its own. */
  function Wrap(pieces: seq<Bytes>): (slots: Slots)
    ensures |slots| == |pieces| && Complete(slots)
  {
    seq(|pieces|, i requires 0 <= i < |pieces| => Some(pieces[i]))
  }

  lemma {:induction false} ConcatWrap(pieces: seq<Bytes>)
    ensures Concat(Wrap(pieces)) == Flatten(pieces)
    decreases |pieces|
  {
    if |pieces| > 0 {
      assert Wrap(pieces)[1..] == Wrap(pieces[1..]);
      ConcatWrap(pieces[1..]);
    }
  }

  // ----- the concatenation as written -----

  /** `MemoryLayout<Data?>.size` on a 64-bit platform. */
  const OptionalDataSize: nat := 16

  /** The reassembly loop as the source writes it: `message.append(part)`
      with `part` of type `Data?` selects the generic `append<T>`, which
      copies the `Data?` value's own in-memory representation, not the
      bytes it refers to. `image` stands for that representation, which the
      model cannot see; only its width is known. */
  function ConcatAsWritten(slots: Slots, image: Option<Bytes> -> Bytes): (r: Bytes)
    requires forall v :: |image(v)| == OptionalDataSize
    ensures |r| == OptionalDataSize * |slots|
    decreases |slots|
  {
    if |slots| == 0 then [] else image(slots[0]) + ConcatAsWritten(slots[1..], image)
  }

  /** A three-byte message in one part comes out as sixteen bytes of memory
      image instead of its three bytes. The difference shown is one of
      length: any message whose parts do not total sixteen bytes per part
      comes out wrong, and what the image bytes hold is not modelled. */
  lemma AsWrittenLosesContent(image: Option<Bytes> -> Bytes)
    requires forall v :: |image(v)| == OptionalDataSize
    ensures ConcatAsWritten([Some([1, 2, 3])], image) != Concat([Some([1, 2, 3])])
  {
    var slots: Slots := [Some([1, 2, 3])];
    assert slots[1..] == [];
    assert |Concat(slots)| == 3;
  }
}
