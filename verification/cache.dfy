/** The per-file atom cache `entry`: an object with a null prototype that
    maps a module id to the atom list parsed from that module's code. It is
    modelled as a list of slots in property-creation order, which is the
    order `Object.values(entry)` reports them in. */
module AtomCache {
  import opened Base

  datatype Slot = Slot(file: string, atoms: seq<string>)

  type Cache = seq<Slot>

  /** Object keys are unique: no file has two slots. */
  predicate UniqueFiles(c: Cache) {
    forall i, j :: 0 <= i < j < |c| ==> c[i].file != c[j].file
  }

  /** `entry[id]`: the atom list cached for `id`, or `None` (`undefined`). */
  function Lookup(c: Cache, id: string): (r: Option<seq<string>>)
    ensures r.None? <==> forall i :: 0 <= i < |c| ==> c[i].file != id
    ensures r.Some? ==> exists i :: 0 <= i < |c| && c[i].file == id && c[i].atoms == r.value
  {
    if |c| == 0 then None
    else if c[0].file == id then Some(c[0].atoms)
    else Lookup(c[1..], id)
  }

  /** With unique keys, every slot is what a lookup of its file finds. */
  lemma {:induction false} LookupSlot(c: Cache, i: nat)
    requires UniqueFiles(c)
    requires i < |c|
    ensures Lookup(c, c[i].file) == Some(c[i].atoms)
  {
    if i > 0 {
      assert c[0].file != c[i].file;
      assert c[1..][i - 1] == c[i];
      LookupSlot(c[1..], i - 1);
    }
  }

  /** The position of the slot of `id`, if it has one. */
  function SlotOf(c: Cache, id: string): (r: Option<nat>)
    ensures r.Some? ==> r.value < |c| && c[r.value].file == id
    ensures r.None? <==> Lookup(c, id).None?
  {
    if |c| == 0 then None
    else if c[0].file == id then Some(0)
    else
      match SlotOf(c[1..], id)
      case Some(k) => Some(k + 1)
      case None => None
  }

  /** `entry[id] = atoms`: overwrite the slot of `id` in place, keeping its
      position, or create it at the end when `id` is new. Keys of a
      JavaScript object are unique, hence the precondition. */
  function Put(c: Cache, id: string, atoms: seq<string>): (r: Cache)
    requires UniqueFiles(c)
    ensures UniqueFiles(r)
    ensures |r| == if Lookup(c, id).Some? then |c| else |c| + 1
    ensures forall i :: 0 <= i < |c| ==> r[i] == if c[i].file == id then Slot(id, atoms) else c[i]
    ensures Lookup(c, id).None? ==> r[|c|] == Slot(id, atoms)
  {
    match SlotOf(c, id)
    case Some(k) =>
      var r := c[k := Slot(id, atoms)];
      assert forall i :: 0 <= i < |c| ==> r[i].file == c[i].file;
      r
    case None =>
      c + [Slot(id, atoms)]
  }

  /** After a write, `id` holds exactly the written list and every other key
      holds what it held before. */
  lemma PutLookup(c: Cache, id: string, atoms: seq<string>, k: string)
    requires UniqueFiles(c)
    ensures Lookup(Put(c, id, atoms), k) == if k == id then Some(atoms) else Lookup(c, k)
  {
    var r := Put(c, id, atoms);
    if k == id {
      var j := if Lookup(c, id).Some? then SlotOf(c, id).value else |c|;
      LookupSlot(r, j);
    } else if Lookup(c, k).Some? {
      var j := SlotOf(c, k).value;
      LookupSlot(c, j);
      LookupSlot(r, j);
    } else {
      assert forall i :: 0 <= i < |r| ==> r[i].file != k;
    }
  }

  /** Last write wins: a second write to the same key erases the first. */
  lemma {:induction false} PutPut(c: Cache, id: string, a: seq<string>, b: seq<string>)
    requires UniqueFiles(c)
    ensures Put(Put(c, id, a), id, b) == Put(c, id, b)
  {
    var once := Put(c, id, a);
    assert Lookup(once, id).Some? by {
      PutLookup(c, id, a, id);
    }
  }

  /** Repeating a write changes nothing. */
  lemma PutIdempotent(c: Cache, id: string, a: seq<string>)
    requires UniqueFiles(c)
    ensures Put(Put(c, id, a), id, a) == Put(c, id, a)
  {
    PutPut(c, id, a, a);
  }

  /** `Object.values(entry).flat()`: every cached list, in slot order. */
  function Flat(c: Cache): (r: seq<string>)
    ensures forall x :: x in r <==> exists i :: 0 <= i < |c| && x in c[i].atoms
  {
    if |c| == 0 then []
    else
      var rest := Flat(c[1..]);
      assert forall i :: 0 < i < |c| ==> c[1..][i - 1] == c[i];
      c[0].atoms + rest
  }

  /** An atom is in the flattened cache exactly when some key's cached list
      holds it. */
  lemma FlatByKey(c: Cache, x: string)
    requires UniqueFiles(c)
    ensures x in Flat(c) <==> exists id :: Lookup(c, id).Some? && x in Lookup(c, id).value
  {
    if x in Flat(c) {
      var i :| 0 <= i < |c| && x in c[i].atoms;
      LookupSlot(c, i);
    }
  }
}
