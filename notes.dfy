/**
 * The in-memory note store: the dict `NOTES` keyed by id and the counter
 * `NEXT_ID`, both updated in place. A Python dict iterates in insertion
 * order, so the store keeps that order beside the map; since ids are
 * handed out by an increasing counter, it is also ascending id order.
 */
module Notes {
  import opened Wrappers
  import opened Json

  /** A stored note. `createdAt` is `int(time.time())` at creation. */
  datatype Note = Note(id: int, owner: Value, title: Value, content: Value, createdAt: int)

  predicate Increasing(s: seq<int>) {
    forall i, j :: 0 <= i < j < |s| ==> s[i] < s[j]
  }

  lemma IncreasingCons(x: int, s: seq<int>)
    requires Increasing(s) && forall k :: k in s ==> x < k
    ensures Increasing([x] + s)
  {
    var t := [x] + s;
    forall i, j | 0 <= i < j < |t| ensures t[i] < t[j] {
      if i == 0 {
        assert t[j] == s[j - 1] && s[j - 1] in s;
      } else {
        assert t[i] == s[i - 1] && t[j] == s[j - 1];
      }
    }
  }

  lemma IncreasingSnoc(s: seq<int>, x: int)
    requires Increasing(s) && forall k :: k in s ==> k < x
    ensures Increasing(s + [x])
  {
    var t := s + [x];
    forall i, j | 0 <= i < j < |t| ensures t[i] < t[j] {
      assert t[i] == s[i] && s[i] in s;
      if j < |s| {
        assert t[j] == s[j];
      } else {
        assert t[j] == x;
      }
    }
  }

  /** s without x (the key order after `del NOTES[x]`). */
  function Without(s: seq<int>, x: int): (r: seq<int>)
    ensures forall k :: k in r <==> k in s && k != x
  {
    if s == [] then []
    else
      var rest := Without(s[1..], x);
      if s[0] == x then rest else [s[0]] + rest
  }

  /** Removing a key keeps the order ascending. */
  lemma {:induction false} WithoutIncreasing(s: seq<int>, x: int)
    requires Increasing(s)
    ensures Increasing(Without(s, x))
  {
    if s != [] {
      assert Increasing(s[1..]);
      WithoutIncreasing(s[1..], x);
      var rest := Without(s[1..], x);
      assert forall k :: k in rest ==> s[0] < k;
      IncreasingCons(s[0], rest);
    }
  }

  /** `[n for n in NOTES.values() if n['owner'] == sub]`, with the values
      visited in the order of `keys`. */
  function OwnedBy(keys: seq<int>, notes: map<int, Note>, sub: Value): (r: seq<Note>)
    requires forall k :: k in keys ==> k in notes
    ensures forall n :: n in r ==> n.owner == sub && exists k :: k in keys && notes[k] == n
    ensures forall k :: k in keys && notes[k].owner == sub ==> notes[k] in r
  {
    if keys == [] then []
    else
      var init := keys[..|keys| - 1];
      var lastKey := keys[|keys| - 1];
      assert lastKey in keys;
      var last := notes[lastKey];
      assert forall k :: k in keys <==> k in init || k == keys[|keys| - 1];
      OwnedBy(init, notes, sub) + (if last.owner == sub then [last] else [])
  }

  predicate AscendingIds(ns: seq<Note>) {
    forall i, j :: 0 <= i < j < |ns| ==> ns[i].id < ns[j].id
  }

  /** Listed notes come in ascending id order. */
  lemma {:induction false} OwnedByAscending(keys: seq<int>, notes: map<int, Note>, sub: Value)
    requires forall k :: k in keys ==> k in notes && notes[k].id == k
    requires Increasing(keys)
    ensures AscendingIds(OwnedBy(keys, notes, sub))
  {
    if keys != [] {
      var init := keys[..|keys| - 1];
      var lastKey := keys[|keys| - 1];
      assert forall k :: k in init ==> k in keys;
      assert Increasing(init);
      OwnedByAscending(init, notes, sub);
      var prefix := OwnedBy(init, notes, sub);
      forall n | n in prefix ensures n.id < lastKey {
        var k :| k in init && notes[k] == n;
        var i :| 0 <= i < |init| && init[i] == k;
        assert keys[i] == k;
      }
      assert lastKey in keys;
      var last := notes[lastKey];
      var r := OwnedBy(keys, notes, sub);
      assert r == prefix + (if last.owner == sub then [last] else []);
      assert AscendingIds(prefix);
      forall i, j | 0 <= i < j < |r| ensures r[i].id < r[j].id {
        assert r[i] == prefix[i];
        if j < |prefix| {
          assert r[j] == prefix[j];
        } else {
          assert r[j] == last && last.id == lastKey;
          assert r[i] in prefix;
        }
      }
    }
  }

  /** Storing a note under a key outside `keys` leaves the listing over
      `keys` as it was. */
  lemma {:induction false} OwnedByFrame(keys: seq<int>, notes: map<int, Note>, sub: Value, note: Note)
    requires forall k :: k in keys ==> k in notes
    requires note.id !in keys
    ensures OwnedBy(keys, notes[note.id := note], sub) == OwnedBy(keys, notes, sub)
  {
    if keys != [] {
      var init := keys[..|keys| - 1];
      assert forall k :: k in init ==> k in keys;
      assert keys[|keys| - 1] in keys;
      OwnedByFrame(init, notes, sub, note);
    }
  }

  /** A created note is listed last for its owner and for nobody else. */
  lemma OwnedByAfterCreate(keys: seq<int>, notes: map<int, Note>, sub: Value, note: Note)
    requires forall k :: k in keys ==> k in notes
    requires note.id !in notes
    ensures OwnedBy(keys + [note.id], notes[note.id := note], sub)
      == OwnedBy(keys, notes, sub) + (if note.owner == sub then [note] else [])
  {
    var keys' := keys + [note.id];
    assert keys'[..|keys'| - 1] == keys;
    OwnedByFrame(keys, notes, sub, note);
  }

  class NoteStore {
    var notes: map<int, Note>
    var order: seq<int>
    var nextId: int

    /** Every key is a past counter value and the id of its note; the
        insertion order lists each key once, ascending. */
    ghost predicate Valid()
      reads this
    {
      && nextId >= 1
      && Increasing(order)
      && (forall k :: k in order <==> k in notes)
      && (forall k :: k in notes ==> 0 < k < nextId && notes[k].id == k)
    }

    /** `NOTES = {}` and `NEXT_ID = 1` */
    constructor ()
      ensures Valid()
      ensures notes == map[] && order == [] && nextId == 1
    {
      notes := map[];
      order := [];
      nextId := 1;
    }

    /** `_create_note`: store the note under the next id and advance the
        counter by one; nothing already stored changes. */
    method CreateNote(owner: Value, title: Value, content: Value, now: int) returns (note: Note)
      requires Valid()
      modifies this
      ensures Valid()
      ensures note == Note(old(nextId), owner, title, content, now)
      ensures note.id !in old(notes)
      ensures forall k :: k in old(notes) ==> k < note.id
      ensures notes == old(notes)[note.id := note]
      ensures order == old(order) + [note.id]
      ensures nextId == old(nextId) + 1
    {
      note := Note(nextId, owner, title, content, now);
      IncreasingSnoc(order, nextId);
      notes := notes[nextId := note];
      order := order + [nextId];
      nextId := nextId + 1;
    }

    /** `list_notes`: the notes `sub` owns, in insertion order. */
    method ListNotes(sub: Value) returns (r: seq<Note>)
      requires Valid()
      ensures r == OwnedBy(order, notes, sub)
    {
      r := [];
      var i := 0;
      while i < |order|
        invariant 0 <= i <= |order|
        invariant r == OwnedBy(order[..i], notes, sub)
      {
        var n := notes[order[i]];
        assert order[..i + 1][..i] == order[..i];
        if n.owner == sub {
          r := r + [n];
        }
        i := i + 1;
      }
      assert order[..i] == order;
    }

    /** `get_note`'s lookup: the note only when it exists and `sub` owns it. */
    function GetNote(id: int, sub: Value): (r: Option<Note>)
      reads this
      requires Valid()
      ensures r.Some? <==> id in notes && notes[id].owner == sub
      ensures r.Some? ==> r.value.id == id && r.value.owner == sub && r.value == notes[id]
    {
      if id in notes && notes[id].owner == sub then Some(notes[id]) else None
    }

    /** `delete_note`'s lookup and `del NOTES[id]`: only the caller's own
        note is removed, and nothing else changes. */
    method DeleteNote(id: int, sub: Value) returns (deleted: bool)
      requires Valid()
      modifies this
      ensures Valid()
      ensures deleted <==> id in old(notes) && old(notes)[id].owner == sub
      ensures notes == if deleted then old(notes) - {id} else old(notes)
      ensures order == if deleted then Without(old(order), id) else old(order)
      ensures nextId == old(nextId)
    {
      if id !in notes || notes[id].owner != sub {
        return false;
      }
      WithoutIncreasing(order, id);
      notes := notes - {id};
      order := Without(order, id);
      deleted := true;
    }
  }

  /** The store as the module leaves it at import time: one note for
      "user:alice" (rs/main.py seeds it before serving). */
  method SeededStore(now: int) returns (store: NoteStore)
    ensures fresh(store) && store.Valid()
    ensures store.notes == map[1 := Note(1, Str("user:alice"), Str("Welcome"), Str("This is your first note"), now)]
    ensures store.order == [1] && store.nextId == 2
  {
    store := new NoteStore();
    var _ := store.CreateNote(Str("user:alice"), Str("Welcome"), Str("This is your first note"), now);
  }
}
