/** Map entries in insertion order, and the key order in which Go's JSON encoder writes them. */
module Sorting {

  type Entry = (string, string)

  // Keys compare character by character.
  predicate Less(a: string, b: string) {
    b != "" && (a == "" || a[0] < b[0] || (a[0] == b[0] && Less(a[1..], b[1..])))
  }

  lemma {:induction false} LessTrichotomy(a: string, b: string)
    ensures Less(a, b) || a == b || Less(b, a)
    ensures !(Less(a, b) && Less(b, a)) && !Less(a, a)
    decreases |a|
  {
    if a != "" && b != "" {
      LessTrichotomy(a[1..], b[1..]);
      LessTrichotomy(a[1..], a[1..]);
      assert a == [a[0]] + a[1..] && b == [b[0]] + b[1..];
    } else if a != "" {
      LessTrichotomy(a[1..], a[1..]);
    }
  }

  lemma {:induction false} LessTransitive(a: string, b: string, c: string)
    requires Less(a, b) && Less(b, c)
    ensures Less(a, c)
    decreases |a|
  {
    if a != "" && a[0] == b[0] == c[0] {
      LessTransitive(a[1..], b[1..], c[1..]);
    }
  }

  // The entries of a Go map: no key twice.
  predicate DistinctKeys(xs: seq<Entry>) {
    forall i, j | 0 <= i < j < |xs| :: xs[i].0 != xs[j].0
  }

  type Entries = xs: seq<Entry> | DistinctKeys(xs)

  function ToMap(xs: Entries): (m: map<string, string>)
    ensures forall k :: k in m <==> exists e :: e in xs && e.0 == k
    ensures forall e :: e in xs <==> e.0 in m && m[e.0] == e.1
  {
    map e | e in xs :: e.0 := e.1
  }

  predicate Sorted(xs: seq<Entry>) {
    forall i, j | 0 <= i < j < |xs| :: Less(xs[i].0, xs[j].0)
  }

  function Insert(e: Entry, xs: seq<Entry>): seq<Entry> {
    if xs == [] || Less(e.0, xs[0].0) then [e] + xs else [xs[0]] + Insert(e, xs[1..])
  }

  function Sort(xs: seq<Entry>): seq<Entry> {
    if xs == [] then [] else Insert(xs[0], Sort(xs[1..]))
  }

  lemma {:induction false} InsertSorted(e: Entry, xs: seq<Entry>)
    requires Sorted(xs) && forall x | x in xs :: x.0 != e.0
    ensures forall x :: x in Insert(e, xs) <==> x == e || x in xs
    ensures Sorted(Insert(e, xs))
  {
    hide Less;
    if xs != [] {
      var rest := xs[1..];
      assert xs == [xs[0]] + rest;
      if Less(e.0, xs[0].0) {
        forall j | 0 <= j < |xs| ensures Less(e.0, xs[j].0) {
          if j > 0 {
            LessTransitive(e.0, xs[0].0, xs[j].0);
          }
        }
      } else {
        LessTrichotomy(e.0, xs[0].0);
        assert xs[0] in xs;
        InsertSorted(e, rest);
        var ys := Insert(e, rest);
        forall j | 0 <= j < |ys| ensures Less(xs[0].0, ys[j].0) {
          assert ys[j] in ys;
        }
      }
    }
  }

  lemma {:induction false} SortSorts(xs: seq<Entry>)
    requires DistinctKeys(xs)
    ensures Sorted(Sort(xs)) && forall x :: x in Sort(xs) <==> x in xs
  {
    if xs != [] {
      SortSorts(xs[1..]);
      assert xs == [xs[0]] + xs[1..];
      InsertSorted(xs[0], Sort(xs[1..]));
    }
  }

  lemma {:induction false} SortedUnique(xs: seq<Entry>, ys: seq<Entry>)
    requires Sorted(xs) && Sorted(ys) && forall x :: x in xs <==> x in ys
    ensures xs == ys
  {
    hide Less;
    assert ys == [] || ys[0] in ys;
    if xs != [] {
      assert xs[0] in ys && ys[0] in xs;
      var i :| 0 <= i < |ys| && ys[i] == xs[0];
      var j :| 0 <= j < |xs| && xs[j] == ys[0];
      LessTrichotomy(xs[0].0, ys[0].0);
      assert xs[0] == ys[0];
      SameTails(xs, ys);
      SameTails(ys, xs);
      SortedUnique(xs[1..], ys[1..]);
      assert xs == [xs[0]] + xs[1..] && ys == [ys[0]] + ys[1..];
    }
  }

  lemma SameTails(xs: seq<Entry>, ys: seq<Entry>)
    requires Sorted(xs) && xs != [] && ys != [] && xs[0] == ys[0]
    requires forall x | x in xs :: x in ys
    ensures forall x | x in xs[1..] :: x in ys[1..]
  {
    hide Less;
    forall x | x in xs[1..] ensures x in ys[1..] {
      var i :| 1 <= i < |xs| && xs[i] == x;
      LessTrichotomy(xs[0].0, xs[i].0);
      assert x in ys && x != ys[0] && ys == [ys[0]] + ys[1..];
    }
  }

  // The sorted entries are the map's alone: insertion order is forgotten.
  lemma SortForgetsOrder(xs: Entries, ys: Entries)
    ensures ToMap(xs) == ToMap(ys) <==> Sort(xs) == Sort(ys)
  {
    SortSorts(xs);
    SortSorts(ys);
    if ToMap(xs) == ToMap(ys) {
      forall x ensures x in xs <==> x in ys {
        assert x in xs <==> x.0 in ToMap(xs) && ToMap(xs)[x.0] == x.1;
      }
      SortedUnique(Sort(xs), Sort(ys));
    }
    if Sort(xs) == Sort(ys) {
      assert forall x :: x in xs <==> x in ys;
      forall k ensures k in ToMap(xs) <==> k in ToMap(ys) {
      }
      forall k | k in ToMap(xs) ensures ToMap(xs)[k] == ToMap(ys)[k] {
        assert (k, ToMap(xs)[k]) in xs;
      }
    }
  }
}
