/**
 * The sort registry of the result table (App.js, the `SORTS` object) and the
 * display-order step of the `Table` component.
 *
 * lodash's `sortBy` is a foreign library; it is modelled here by a stable
 * insertion sort whose meaning is stated by three lemmas: the output is
 * ordered by the field, it is a permutation of the input, and hits whose
 * field values are equal keep their relative order (stability).
 */
module Sorts {

  /** One search hit as the search API returns it. */
  datatype Hit = Hit(
    objectID: string,
    title: string,
    url: string,
    author: string,
    numComments: int,
    points: int)

  /** The sort modes, the keys of the `SORTS` registry. */
  datatype SortKey = NONE | TITLE | AUTHOR | COMMENTS | POINTS

  /** The hit fields the registry asks `sortBy` to order by. */
  datatype Field = Title | Author | NumComments | Points

  // ---------------------------------------------------------------------------
  // JavaScript's ordering of strings

  /** `a <= b` on strings: character by character, a proper prefix first. */
  predicate StrLe(a: string, b: string)
  {
    a == [] || (b != [] && (a[0] < b[0] || (a[0] == b[0] && StrLe(a[1..], b[1..]))))
  }

  lemma {:induction false} StrLeReflexive(a: string)
    ensures StrLe(a, a)
  {
    if a != [] {
      StrLeReflexive(a[1..]);
    }
  }

  lemma {:induction false} StrLeTotal(a: string, b: string)
    ensures StrLe(a, b) || StrLe(b, a)
  {
    if a != [] && b != [] && a[0] == b[0] {
      StrLeTotal(a[1..], b[1..]);
    }
  }

  lemma {:induction false} StrLeTransitive(a: string, b: string, c: string)
    requires StrLe(a, b) && StrLe(b, c)
    ensures StrLe(a, c)
  {
    if a != [] && b != [] && c != [] && a[0] == b[0] == c[0] {
      StrLeTransitive(a[1..], b[1..], c[1..]);
    }
  }

  lemma {:induction false} StrLeAntisymmetric(a: string, b: string)
    requires StrLe(a, b) && StrLe(b, a)
    ensures a == b
  {
    if a != [] && b != [] {
      StrLeAntisymmetric(a[1..], b[1..]);
      assert a == [a[0]] + a[1..];
      assert b == [b[0]] + b[1..];
    }
  }

  // ---------------------------------------------------------------------------
  // Ordering hits by one field

  /** The comparison `sortBy(list, field)` uses: the field values in ascending order. */
  predicate FieldLe(f: Field, x: Hit, y: Hit)
  {
    match f
    case Title => StrLe(x.title, y.title)
    case Author => StrLe(x.author, y.author)
    case NumComments => x.numComments <= y.numComments
    case Points => x.points <= y.points
  }

  /** `x` and `y` carry the same value in field `f`: `sortBy` leaves them in input order. */
  predicate SameKey(f: Field, x: Hit, y: Hit)
  {
    match f
    case Title => x.title == y.title
    case Author => x.author == y.author
    case NumComments => x.numComments == y.numComments
    case Points => x.points == y.points
  }

  lemma FieldLeTotal(f: Field, x: Hit, y: Hit)
    ensures FieldLe(f, x, y) || FieldLe(f, y, x)
  {
    match f
    case Title => StrLeTotal(x.title, y.title);
    case Author => StrLeTotal(x.author, y.author);
    case NumComments =>
    case Points =>
  }

  lemma FieldLeTransitive(f: Field, x: Hit, y: Hit, z: Hit)
    requires FieldLe(f, x, y) && FieldLe(f, y, z)
    ensures FieldLe(f, x, z)
  {
    match f
    case Title => StrLeTransitive(x.title, y.title, z.title);
    case Author => StrLeTransitive(x.author, y.author, z.author);
    case NumComments =>
    case Points =>
  }

  /** Two hits are tied under `f` exactly when each is at most the other. */
  lemma FieldLeTie(f: Field, x: Hit, y: Hit)
    ensures FieldLe(f, x, y) && FieldLe(f, y, x) <==> SameKey(f, x, y)
  {
    match f
    case Title =>
      StrLeReflexive(x.title);
      if StrLe(x.title, y.title) && StrLe(y.title, x.title) {
        StrLeAntisymmetric(x.title, y.title);
      }
    case Author =>
      StrLeReflexive(x.author);
      if StrLe(x.author, y.author) && StrLe(y.author, x.author) {
        StrLeAntisymmetric(x.author, y.author);
      }
    case NumComments =>
    case Points =>
  }

  /** Ascending in field `f`: every hit is at most every hit after it. */
  predicate Sorted(f: Field, s: seq<Hit>)
  {
    forall i, j :: 0 <= i < j < |s| ==> FieldLe(f, s[i], s[j])
  }

  /** The hits of `s` tied with `p` under `f`, in their order in `s`. */
  function Peers(f: Field, p: Hit, s: seq<Hit>): seq<Hit>
  {
    if s == [] then []
    else (if SameKey(f, s[0], p) then [s[0]] else []) + Peers(f, p, s[1..])
  }

  lemma {:induction false} PeersAppend(f: Field, p: Hit, a: seq<Hit>, b: seq<Hit>)
    ensures Peers(f, p, a + b) == Peers(f, p, a) + Peers(f, p, b)
  {
    if a == [] {
      assert a + b == b;
    } else {
      assert (a + b)[1..] == a[1..] + b;
      PeersAppend(f, p, a[1..], b);
    }
  }

  // ---------------------------------------------------------------------------
  // lodash sortBy as a stable insertion sort

  /** Puts `x` in front of the first hit it is at most, so that `x` precedes its ties. */
  function Insert(f: Field, x: Hit, s: seq<Hit>): (r: seq<Hit>)
    ensures |r| == |s| + 1
    ensures multiset(r) == multiset(s) + multiset{x}
  {
    if s == [] || FieldLe(f, x, s[0]) then [x] + s
    else
      assert s == [s[0]] + s[1..];
      [s[0]] + Insert(f, x, s[1..])
  }

  /** `sortBy(list, field)`: the hits in ascending order of `f`, ties in input order. */
  function SortBy(f: Field, s: seq<Hit>): (r: seq<Hit>)
    ensures |r| == |s|
    ensures multiset(r) == multiset(s)
  {
    if s == [] then []
    else
      assert s == [s[0]] + s[1..];
      Insert(f, s[0], SortBy(f, s[1..]))
  }

  /** A hit at most every hit of an ascending list can go in front of it. */
  lemma SortedCons(f: Field, y: Hit, t: seq<Hit>)
    requires Sorted(f, t)
    requires forall e :: e in t ==> FieldLe(f, y, e)
    ensures Sorted(f, [y] + t)
  {
    var r := [y] + t;
    forall i, j | 0 <= i < j < |r| ensures FieldLe(f, r[i], r[j]) {
      assert r[j] == t[j - 1];
      if i > 0 {
        assert r[i] == t[i - 1];
      }
    }
  }

  lemma {:induction false} InsertSorted(f: Field, x: Hit, s: seq<Hit>)
    requires Sorted(f, s)
    ensures Sorted(f, Insert(f, x, s))
  {
    if s == [] {
    } else if FieldLe(f, x, s[0]) {
      forall e | e in s ensures FieldLe(f, x, e) {
        if e != s[0] {
          var k :| 0 <= k < |s| && s[k] == e;
          FieldLeTransitive(f, x, s[0], e);
        }
      }
      SortedCons(f, x, s);
    } else {
      var t := Insert(f, x, s[1..]);
      InsertSorted(f, x, s[1..]);
      FieldLeTotal(f, x, s[0]);
      forall e | e in t ensures FieldLe(f, s[0], e) {
        assert e in multiset(t);
        if e != x {
          var k :| 0 <= k < |s[1..]| && s[1..][k] == e;
          assert s[k + 1] == e;
        }
      }
      SortedCons(f, s[0], t);
    }
  }

  lemma PeersCons(f: Field, p: Hit, a: Hit, r: seq<Hit>)
    ensures Peers(f, p, [a] + r) == (if SameKey(f, a, p) then [a] else []) + Peers(f, p, r)
  {
    assert ([a] + r)[1..] == r;
  }

  /** Inserting `x` in front of its ties keeps every class of tied hits in input order. */
  lemma {:induction false} InsertPeers(f: Field, x: Hit, s: seq<Hit>, p: Hit)
    ensures Peers(f, p, Insert(f, x, s)) == Peers(f, p, [x] + s)
  {
    if s == [] || FieldLe(f, x, s[0]) {
    } else {
      var t := Insert(f, x, s[1..]);
      var a := if SameKey(f, s[0], p) then [s[0]] else [];
      var b := if SameKey(f, x, p) then [x] else [];
      NotBothTied(f, x, s[0], p);
      calc {
        Peers(f, p, Insert(f, x, s));
        { assert Insert(f, x, s) == [s[0]] + t; PeersCons(f, p, s[0], t); }
        a + Peers(f, p, t);
        { InsertPeers(f, x, s[1..], p); PeersCons(f, p, x, s[1..]); }
        a + (b + Peers(f, p, s[1..]));
        { SwapSingletons(a, b, Peers(f, p, s[1..])); }
        b + (a + Peers(f, p, s[1..]));
        { PeersCons(f, p, s[0], s[1..]); assert [s[0]] + s[1..] == s; }
        b + Peers(f, p, s);
        { PeersCons(f, p, x, s); }
        Peers(f, p, [x] + s);
      }
    }
  }

  lemma SwapSingletons(a: seq<Hit>, b: seq<Hit>, rest: seq<Hit>)
    requires a == [] || b == []
    ensures a + (b + rest) == b + (a + rest)
  {
  }

  /** A hit strictly below `x` is never tied with the same hit as `x`. */
  lemma NotBothTied(f: Field, x: Hit, y: Hit, p: Hit)
    requires !FieldLe(f, x, y)
    ensures !(SameKey(f, x, p) && SameKey(f, y, p))
  {
    FieldLeTie(f, x, y);
  }

  /** lodash's sortBy output is ascending in the field. */
  lemma {:induction false} SortBySorted(f: Field, s: seq<Hit>)
    ensures Sorted(f, SortBy(f, s))
  {
    if s != [] {
      SortBySorted(f, s[1..]);
      InsertSorted(f, s[0], SortBy(f, s[1..]));
    }
  }

  /** lodash's sortBy is stable: hits tied under the field keep their input order. */
  lemma {:induction false} SortByStable(f: Field, s: seq<Hit>, p: Hit)
    ensures Peers(f, p, SortBy(f, s)) == Peers(f, p, s)
  {
    if s != [] {
      var rest := SortBy(f, s[1..]);
      InsertPeers(f, s[0], rest, p);
      PeersCons(f, p, s[0], rest);
      SortByStable(f, s[1..], p);
    }
  }

  // ---------------------------------------------------------------------------
  // Array.prototype.reverse, as a value

  function Reverse(s: seq<Hit>): (r: seq<Hit>)
    ensures |r| == |s|
    ensures multiset(r) == multiset(s)
  {
    if s == [] then []
    else
      assert s == [s[0]] + s[1..];
      Reverse(s[1..]) + [s[0]]
  }

  /** The element at position `i` of the reversal is the one at `n-1-i` of the list. */
  lemma {:induction false} ReverseIndex(s: seq<Hit>)
    ensures forall i :: 0 <= i < |s| ==> Reverse(s)[i] == s[|s| - 1 - i]
  {
    if s != [] {
      ReverseIndex(s[1..]);
    }
  }

  /** Reversing twice gives back the list. */
  lemma {:induction false} ReverseReverse(s: seq<Hit>)
    ensures Reverse(Reverse(s)) == s
  {
    if s != [] {
      var t := Reverse(s[1..]);
      assert Reverse(s) == t + [s[0]];
      ReverseAppend(t, [s[0]]);
      ReverseReverse(s[1..]);
      assert Reverse([s[0]]) == [s[0]] by {
        assert [s[0]][1..] == [];
      }
      assert s == [s[0]] + s[1..];
    }
  }

  /** The tied hits of a reversed list are the reversed tied hits. */
  lemma {:induction false} PeersReverse(f: Field, p: Hit, s: seq<Hit>)
    ensures Peers(f, p, Reverse(s)) == Reverse(Peers(f, p, s))
  {
    if s != [] {
      var head := if SameKey(f, s[0], p) then [s[0]] else [];
      PeersReverse(f, p, s[1..]);
      PeersAppend(f, p, Reverse(s[1..]), [s[0]]);
      assert Peers(f, p, [s[0]]) == head;
      ReverseAppend(head, Peers(f, p, s[1..]));
      assert Reverse(head) == head;
    }
  }

  /** Reversal turns a concatenation around. */
  lemma {:induction false} ReverseAppend(a: seq<Hit>, b: seq<Hit>)
    ensures Reverse(a + b) == Reverse(b) + Reverse(a)
  {
    if a == [] {
      assert a + b == b;
      assert Reverse(b) + [] == Reverse(b);
    } else {
      assert (a + b)[1..] == a[1..] + b;
      ReverseAppend(a[1..], b);
    }
  }


  // ---------------------------------------------------------------------------
  // The registry and the table's display order

  /** `SORTS[k](list)`. */
  function ApplySort(k: SortKey, list: seq<Hit>): seq<Hit>
  {
    match k
    case NONE => list
    case TITLE => SortBy(Title, list)
    case AUTHOR => SortBy(Author, list)
    case COMMENTS => Reverse(SortBy(NumComments, list))
    case POINTS => Reverse(SortBy(Points, list))
  }

  /** Every sort mode returns a permutation of its input; NONE returns the input itself. */
  lemma ApplySortPermutation(k: SortKey, list: seq<Hit>)
    ensures multiset(ApplySort(k, list)) == multiset(list)
    ensures k == NONE ==> ApplySort(k, list) == list
  {
  }

  /** TITLE and AUTHOR order ascending by their field and keep every hit. */
  lemma ApplySortAscending(k: SortKey, list: seq<Hit>)
    requires k == TITLE || k == AUTHOR
    ensures var r := ApplySort(k, list);
      forall i, j :: 0 <= i < j < |r| ==>
        if k == TITLE then StrLe(r[i].title, r[j].title) else StrLe(r[i].author, r[j].author)
    ensures multiset(ApplySort(k, list)) == multiset(list)
  {
    SortBySorted(if k == TITLE then Title else Author, list);
  }

  /** A list ascending in `f`, reversed, is descending in `f`. */
  lemma ReverseDescending(f: Field, s: seq<Hit>)
    requires Sorted(f, s)
    ensures var r := Reverse(s); forall i, j :: 0 <= i < j < |r| ==> FieldLe(f, r[j], r[i])
  {
    var r := Reverse(s);
    ReverseIndex(s);
    forall i, j | 0 <= i < j < |r| ensures FieldLe(f, r[j], r[i]) {
      assert r[i] == s[|s| - 1 - i] && r[j] == s[|s| - 1 - j];
    }
  }

  /** COMMENTS and POINTS order descending by their count. */
  lemma ApplySortDescending(k: SortKey, list: seq<Hit>)
    requires k == COMMENTS || k == POINTS
    ensures var r := ApplySort(k, list);
      k == COMMENTS ==> forall i, j :: 0 <= i < j < |r| ==> r[i].numComments >= r[j].numComments
    ensures var r := ApplySort(k, list);
      k == POINTS ==> forall i, j :: 0 <= i < j < |r| ==> r[i].points >= r[j].points
  {
    var f := if k == COMMENTS then NumComments else Points;
    SortBySorted(f, list);
    ReverseDescending(f, SortBy(f, list));
    var r := ApplySort(k, list);
    assert r == Reverse(SortBy(f, list));
    forall i, j | 0 <= i < j < |r| ensures FieldLe(f, r[j], r[i]) {
    }
  }

  /**
   * COMMENTS and POINTS are the stable ascending sort reversed, so hits with equal
   * counts appear in the reverse of their input order.
   */
  lemma ApplySortDescendingTies(k: SortKey, list: seq<Hit>, p: Hit)
    requires k == COMMENTS || k == POINTS
    ensures var f := if k == COMMENTS then NumComments else Points;
      ApplySort(k, list) == Reverse(SortBy(f, list)) &&
      Peers(f, p, ApplySort(k, list)) == Reverse(Peers(f, p, list))
  {
    var f := if k == COMMENTS then NumComments else Points;
    PeersReverse(f, p, SortBy(f, list));
    SortByStable(f, list, p);
  }

  /** The order `Table` renders: the registry output, reversed unless `isSortReverse`. */
  function DisplayOrder(k: SortKey, isSortReverse: bool, list: seq<Hit>): seq<Hit>
  {
    var sorted := ApplySort(k, list);
    if isSortReverse then sorted else Reverse(sorted)
  }

  /** The table shows every cached hit exactly once, whatever the mode and direction. */
  lemma DisplayPermutation(k: SortKey, isSortReverse: bool, list: seq<Hit>)
    ensures multiset(DisplayOrder(k, isSortReverse, list)) == multiset(list)
  {
  }

  /**
   * With no sort chosen and the reverse flag at its initial `false`, the table shows
   * the cached hits in reverse arrival order (newest first); with COMMENTS or POINTS and the flag
   * `false` it shows them in ASCENDING order of the count (the two reversals cancel).
   */
  lemma DisplayDefaultOrder(k: SortKey, list: seq<Hit>)
    ensures k == NONE ==> DisplayOrder(k, false, list) == Reverse(list)
    ensures k == COMMENTS ==> DisplayOrder(k, false, list) == SortBy(NumComments, list)
    ensures k == POINTS ==> DisplayOrder(k, false, list) == SortBy(Points, list)
  {
    if k == COMMENTS {
      ReverseReverse(SortBy(NumComments, list));
    } else if k == POINTS {
      ReverseReverse(SortBy(Points, list));
    }
  }
}
