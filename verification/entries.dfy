/** Operations on the ordered, id-keyed entry sequences of a resume (work
    history, education, skills). The Editor addresses entries by id, and ids
    are not unique, so removal and update act on EVERY entry whose id
    matches. Each operation is generic in the entry type; `idOf` projects an
    entry's id. */
module Entries {

  /** Number of entries whose id is `id`. */
  function CountId<T>(s: seq<T>, idOf: T -> string, id: string): (n: nat)
    ensures n <= |s|
  {
    if |s| == 0 then 0
    else (if idOf(s[0]) == id then 1 else 0) + CountId(s[1..], idOf, id)
  }

  /** An entry carrying the id makes its count at least one. */
  lemma {:induction false} CountIdAtLeastOne<T>(s: seq<T>, idOf: T -> string, id: string, i: nat)
    requires i < |s| && idOf(s[i]) == id
    ensures CountId(s, idOf, id) >= 1
  {
    if i > 0 {
      CountIdAtLeastOne(s[1..], idOf, id, i - 1);
    }
  }

  /** Two distinct positions carrying the id make its count at least two. */
  lemma {:induction false} CountIdAtLeastTwo<T>(s: seq<T>, idOf: T -> string, id: string, i: nat, j: nat)
    requires i < |s| && j < |s| && i != j
    requires idOf(s[i]) == id && idOf(s[j]) == id
    ensures CountId(s, idOf, id) >= 2
  {
    if i > 0 && j > 0 {
      CountIdAtLeastTwo(s[1..], idOf, id, i - 1, j - 1);
    } else if i == 0 {
      CountIdAtLeastOne(s[1..], idOf, id, j - 1);
    } else {
      CountIdAtLeastOne(s[1..], idOf, id, i - 1);
    }
  }

  /** `Array.prototype.filter(e => e.id !== id)`: keeps exactly the entries
      whose id differs from `id`, each as often as it occurs, in their
      original relative order (see RemoveByIdAppend). */
  function RemoveById<T(!new)>(s: seq<T>, idOf: T -> string, id: string): (r: seq<T>)
    ensures |r| == |s| - CountId(s, idOf, id)
    ensures forall i :: 0 <= i < |r| ==> idOf(r[i]) != id
  {
    if |s| == 0 then []
    else
      var rest := RemoveById(s[1..], idOf, id);
      assert s == [s[0]] + s[1..];
      if idOf(s[0]) == id then rest else [s[0]] + rest
  }

  /** Exactly the entries with a different id survive, each with its
      original multiplicity; the matching ones are all gone. */
  lemma {:induction false} RemoveByIdContents<T(!new)>(s: seq<T>, idOf: T -> string, id: string)
    ensures forall x :: multiset(RemoveById(s, idOf, id))[x] == if idOf(x) == id then 0 else multiset(s)[x]
    ensures forall x :: x in RemoveById(s, idOf, id) <==> x in s && idOf(x) != id
  {
    if |s| > 0 {
      RemoveByIdContents(s[1..], idOf, id);
      assert s == [s[0]] + s[1..];
      assert multiset(s) == multiset{s[0]} + multiset(s[1..]);
      var rest := RemoveById(s[1..], idOf, id);
      if idOf(s[0]) != id {
        assert multiset([s[0]] + rest) == multiset{s[0]} + multiset(rest);
      }
    }
  }

  /** Filtering distributes over concatenation: the kept entries of a
      prefix come before the kept entries of the suffix, so the relative
      order of the survivors is that of the input. */
  lemma {:induction false} RemoveByIdAppend<T(!new)>(a: seq<T>, b: seq<T>, idOf: T -> string, id: string)
    ensures RemoveById(a + b, idOf, id) == RemoveById(a, idOf, id) + RemoveById(b, idOf, id)
  {
    if |a| == 0 {
      assert a + b == b;
    } else {
      var ab := a + b;
      assert ab[0] == a[0];
      assert ab[1..] == a[1..] + b;
      RemoveByIdAppend(a[1..], b, idOf, id);
      var tail := RemoveById(a[1..], idOf, id) + RemoveById(b, idOf, id);
      if idOf(a[0]) == id {
        assert RemoveById(ab, idOf, id) == tail;
        assert RemoveById(a, idOf, id) == RemoveById(a[1..], idOf, id);
      } else {
        assert RemoveById(ab, idOf, id) == [a[0]] + tail;
        assert RemoveById(a, idOf, id) == [a[0]] + RemoveById(a[1..], idOf, id);
      }
    }
  }

  /** Removing an id that no entry carries leaves the sequence unchanged. */
  lemma {:induction false} RemoveAbsentId<T(!new)>(s: seq<T>, idOf: T -> string, id: string)
    requires forall i :: 0 <= i < |s| ==> idOf(s[i]) != id
    ensures RemoveById(s, idOf, id) == s
  {
    if |s| > 0 {
      RemoveAbsentId(s[1..], idOf, id);
      assert s == [s[0]] + s[1..];
    }
  }

  /** Removal is idempotent. */
  lemma RemoveByIdIdempotent<T(!new)>(s: seq<T>, idOf: T -> string, id: string)
    ensures RemoveById(RemoveById(s, idOf, id), idOf, id) == RemoveById(s, idOf, id)
  {
    RemoveAbsentId(RemoveById(s, idOf, id), idOf, id);
  }

  /** `Array.prototype.map(e => e.id === id ? upd(e) : e)`: the length is
      kept, every entry with the id is replaced by its update and every
      other entry is left as it was. */
  function UpdateById<T>(s: seq<T>, idOf: T -> string, id: string, upd: T -> T): (r: seq<T>)
    ensures |r| == |s|
    ensures forall i :: 0 <= i < |s| && idOf(s[i]) != id ==> r[i] == s[i]
    ensures forall i :: 0 <= i < |s| && idOf(s[i]) == id ==> r[i] == upd(s[i])
  {
    if |s| == 0 then []
    else [if idOf(s[0]) == id then upd(s[0]) else s[0]] + UpdateById(s[1..], idOf, id, upd)
  }

  /** `Array.prototype.find(e => e.id === id)`: the FIRST entry with the id,
      or None when there is none. */
  function FindById<T>(s: seq<T>, idOf: T -> string, id: string): (r: FindResult<T>)
    ensures r.NotFound? <==> forall i :: 0 <= i < |s| ==> idOf(s[i]) != id
    ensures r.Found? ==> 0 <= r.index < |s| && idOf(s[r.index]) == id && r.entry == s[r.index]
    ensures r.Found? ==> forall i :: 0 <= i < r.index ==> idOf(s[i]) != id
  {
    if |s| == 0 then NotFound
    else if idOf(s[0]) == id then Found(0, s[0])
    else
      match FindById(s[1..], idOf, id)
      case NotFound => NotFound
      case Found(k, e) => Found(k + 1, e)
  }

  /** Outcome of a search: the position and value of the entry found. */
  datatype FindResult<T> = NotFound | Found(index: nat, entry: T)
}
