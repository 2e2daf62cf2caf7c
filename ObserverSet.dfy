/**
 * The observer collection of Lifecycle.kt, a `linkedSetOf()`: an insertion-ordered
 * set, modelled as a sequence without duplicates.
 */
module ObserverSet {

  /** No identity occurs twice. */
  predicate NoDups<O(==)>(s: seq<O>)
  {
    forall i, j :: 0 <= i < j < |s| ==> s[i] != s[j]
  }

  /**
   * `observers += o`: the members become those of `s` plus `o`; the existing
   * members keep their positions and order, and `o` is appended only if absent.
   */
  function Insert<O(==)>(s: seq<O>, o: O): (r: seq<O>)
    ensures o in r
    ensures |r| == if o in s then |s| else |s| + 1
    ensures r[..|s|] == s
    ensures NoDups(s) ==> NoDups(r)
  {
    if o in s then s else s + [o]
  }

  /** `observers -= o`: every occurrence of `o` leaves, the rest keep their order. */
  function Remove<O(==)>(s: seq<O>, o: O): (r: seq<O>)
    ensures forall i :: 0 <= i < |r| ==> r[i] in s && r[i] != o
    ensures forall i :: 0 <= i < |s| && s[i] != o ==> s[i] in r
    ensures NoDups(s) ==> NoDups(r)
  {
    if s == [] then []
    else if s[0] == o then Remove(s[1..], o)
    else [s[0]] + Remove(s[1..], o)
  }

  /** Inserting an observer that is present already changes nothing; inserting twice is inserting once. */
  lemma InsertIsIdempotent<O>(s: seq<O>, o: O)
    ensures o in s ==> Insert(s, o) == s
    ensures Insert(Insert(s, o), o) == Insert(s, o)
  {
  }

  /** One step of Remove on a collection whose first member is `x`. */
  lemma RemoveCons<O>(x: O, t: seq<O>, o: O)
    ensures Remove([x] + t, o) == if x == o then Remove(t, o) else [x] + Remove(t, o)
  {
    assert ([x] + t)[0] == x && ([x] + t)[1..] == t;
  }

  /** Removing an absent observer changes nothing. */
  lemma {:induction false} RemoveAbsent<O>(s: seq<O>, o: O)
    requires o !in s
    ensures Remove(s, o) == s
  {
    if s != [] {
      var x, t := s[0], s[1..];
      assert s == [x] + t;
      RemoveAbsent(t, o);
      RemoveCons(x, t, o);
    }
  }

  /** Removing distributes over concatenation. */
  lemma {:induction false} RemoveConcat<O>(a: seq<O>, b: seq<O>, o: O)
    ensures Remove(a + b, o) == Remove(a, o) + Remove(b, o)
  {
    if a != [] {
      var ab := a + b;
      assert ab[0] == a[0] && ab[1..] == a[1..] + b;
      RemoveConcat(a[1..], b, o);
      if a[0] == o {
        assert Remove(ab, o) == Remove(a[1..] + b, o);
        assert Remove(a, o) == Remove(a[1..], o);
      } else {
        assert Remove(ab, o) == [a[0]] + Remove(a[1..] + b, o);
        assert Remove(a, o) == [a[0]] + Remove(a[1..], o);
      }
    } else {
      assert a + b == b;
    }
  }

  /** In a duplicate-free collection, removing the member at `i` splices it out and keeps the rest in order. */
  lemma RemoveSplice<O>(s: seq<O>, o: O, i: nat)
    requires NoDups(s) && i < |s| && s[i] == o
    ensures Remove(s, o) == s[..i] + s[i + 1..]
  {
    assert s == s[..i] + ([o] + s[i + 1..]);
    RemoveConcat(s[..i], [o] + s[i + 1..], o);
    RemoveConcat([o], s[i + 1..], o);
    RemoveAbsent(s[..i], o);
    RemoveAbsent(s[i + 1..], o);
  }

  /** Removing a newly inserted observer restores the collection. */
  lemma RemoveUndoesInsert<O>(s: seq<O>, o: O)
    requires o !in s
    ensures Remove(Insert(s, o), o) == s
  {
    RemoveConcat(s, [o], o);
    RemoveAbsent(s, o);
  }

  /** Removing twice is removing once. */
  lemma RemoveIsIdempotent<O>(s: seq<O>, o: O)
    ensures Remove(Remove(s, o), o) == Remove(s, o)
  {
    RemoveAbsent(Remove(s, o), o);
  }
}
