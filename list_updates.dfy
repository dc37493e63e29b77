/** The list updates both pages perform on filter lists and saved-course lists: removing every
    occurrence of an id, appending it, and toggling it. */
module ListUpdates {
  import opened Seqs

  /** `s.filter(y => y !== x)`: every occurrence of `x` removed, everything else kept in order. */
  function RemoveAll<T(==)>(s: seq<T>, x: T): (r: seq<T>)
    ensures x !in r
    ensures forall i :: 0 <= i < |r| ==> r[i] in s
    ensures forall i :: 0 <= i < |s| && s[i] != x ==> s[i] in r
  {
    Filter(s, y => y != x)
  }

  /** Removal drops all copies of `x` and keeps every copy of any other element. */
  lemma RemoveAllCount<T>(s: seq<T>, x: T, y: T)
    ensures multiset(RemoveAll(s, x))[y] == if y == x then 0 else multiset(s)[y]
  {
    FilterCount(s, z => z != x, y);
  }

  /** Removal works piecewise, so the other elements keep their relative order. */
  lemma RemoveAllConcat<T>(a: seq<T>, b: seq<T>, x: T)
    ensures RemoveAll(a + b, x) == RemoveAll(a, x) + RemoveAll(b, x)
  {
    FilterConcat(a, b, y => y != x);
  }

  /** Removing an element that is not there changes nothing. */
  lemma RemoveAllAbsent<T>(s: seq<T>, x: T)
    requires x !in s
    ensures RemoveAll(s, x) == s
  {
    FilterKeepsAll(s, y => y != x);
  }

  /** The saved-course update: `present ? s.filter(id => id !== x) : [...s, x]`. */
  function UpdateSaved<T(==)>(s: seq<T>, x: T, present: bool): (r: seq<T>)
    ensures x in r <==> !present
    ensures !present ==> |r| == |s| + 1 && r[..|s|] == s && r[|s|] == x
  {
    if present then RemoveAll(s, x) else s + [x]
  }

  /** The update touches only the copies of `x`: it removes them all or adds exactly one. */
  lemma UpdateSavedCount<T>(s: seq<T>, x: T, present: bool, y: T)
    ensures multiset(UpdateSaved(s, x, present))[y]
         == if y != x then multiset(s)[y]
            else if present then 0
            else multiset(s)[x] + 1
  {
    RemoveAllCount(s, x, y);
  }

  /** `s.includes(x) ? s.filter(y => y !== x) : [...s, x]`: afterwards `x` is present iff it
      was absent before. */
  function Toggle<T(==)>(s: seq<T>, x: T): (r: seq<T>)
    ensures x in r <==> x !in s
  {
    UpdateSaved(s, x, x in s)
  }

  /** Toggling twice restores a list that lacked `x`; on a list that had `x` it leaves one copy
      of `x`, moved to the end. */
  lemma ToggleTwice<T>(s: seq<T>, x: T)
    ensures x !in s ==> Toggle(Toggle(s, x), x) == s
    ensures x in s ==> Toggle(Toggle(s, x), x) == RemoveAll(s, x) + [x]
  {
    if x !in s {
      assert Toggle(s, x) == s + [x];
      RemoveAllConcat(s, [x], x);
      RemoveAllAbsent(s, x);
      FilterSingleton(x, y => y != x);
    }
  }
}
