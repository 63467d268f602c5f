/**
 The listing normaliser of the `/api/files` handler: raw objects of one remote
 listing page become entries (`map`), entries whose name is empty are dropped
 (`filter`), and the rest are ordered newest first by a stable sort (`sort`).
 */
module Listing {
  import opened Strings
  import opened FileType

  /** One object of a remote listing page, `{Key, Size, LastModified}`; the timestamp is an integer. */
  datatype RawObject = RawObject(key: string, size: nat, lastModified: int)

  /** One entry of the listing reply, `{key, name, size, lastModified, type}`. */
  datatype Entry = Entry(key: string, name: string, size: nat, lastModified: int, fileType: Category)

  /** The `map` step for one object: its name is the key's last `/` segment, its type the key's category. */
  function ToEntry(o: RawObject): Entry {
    Entry(o.key, LastSegment(o.key, '/'), o.size, o.lastModified, Classify(o.key))
  }

  /** The `map` step: one entry per raw object, in order. */
  function Entries(raw: seq<RawObject>): (es: seq<Entry>)
    ensures |es| == |raw|
    ensures forall i :: 0 <= i < |raw| ==> es[i] == ToEntry(raw[i])
  {
    seq(|raw|, i requires 0 <= i < |raw| => ToEntry(raw[i]))
  }

  /**
   The `filter(f => f.name)` step: the entries with a non-empty name, in
   order. An entry is kept exactly when it is in the input and has a name.
   */
  function Named(es: seq<Entry>): (r: seq<Entry>)
    ensures |r| <= |es|
    ensures forall e :: e in r <==> e in es && e.name != ""
  {
    if |es| == 0 then []
    else (if es[0].name != "" then [es[0]] else []) + Named(es[1..])
  }

  /** Filtering a concatenation filters each part: the filter keeps order and multiplicity. */
  lemma {:induction false} NamedAppend(a: seq<Entry>, b: seq<Entry>)
    ensures Named(a + b) == Named(a) + Named(b)
  {
    if |a| > 0 {
      var h := if a[0].name != "" then [a[0]] else [];
      assert (a + b)[0] == a[0];
      assert (a + b)[1..] == a[1..] + b;
      assert Named(a + b) == h + Named(a[1..] + b);
      NamedAppend(a[1..], b);
      assert h + (Named(a[1..]) + Named(b)) == (h + Named(a[1..])) + Named(b);
    } else {
      assert a + b == b;
    }
  }

  /** Non-increasing `lastModified`: newest first. */
  predicate NewestFirst(es: seq<Entry>) {
    forall i, j :: 0 <= i < j < |es| ==> es[i].lastModified >= es[j].lastModified
  }

  /** An entry no older than anything in a newest-first sequence can go in front of it. */
  lemma PrependNewest(x: Entry, s: seq<Entry>)
    requires NewestFirst(s)
    requires forall y :: y in s ==> y.lastModified <= x.lastModified
    ensures NewestFirst([x] + s)
  {
    forall i, j | 0 <= i < j < |[x] + s|
      ensures ([x] + s)[i].lastModified >= ([x] + s)[j].lastModified
    {
      if i == 0 {
        assert ([x] + s)[j] in s;
      }
    }
  }

  /** The entries of `es` stamped `t`, in their order in `es`. */
  function Stamped(es: seq<Entry>, t: int): seq<Entry> {
    if |es| == 0 then []
    else (if es[0].lastModified == t then [es[0]] else []) + Stamped(es[1..], t)
  }

  /** A sequence in which no entry is stamped `t` has none to show for `t`. */
  lemma {:induction false} StampedNone(es: seq<Entry>, t: int)
    requires forall i :: 0 <= i < |es| ==> es[i].lastModified != t
    ensures Stamped(es, t) == []
  {
    if |es| > 0 {
      StampedNone(es[1..], t);
    }
  }

  /** The entries stamped `t` of a concatenation are those of each part. */
  lemma {:induction false} StampedAppend(a: seq<Entry>, b: seq<Entry>, t: int)
    ensures Stamped(a + b, t) == Stamped(a, t) + Stamped(b, t)
  {
    if |a| > 0 {
      assert (a + b)[0] == a[0];
      assert (a + b)[1..] == a[1..] + b;
      StampedAppend(a[1..], b, t);
    } else {
      assert a + b == b;
    }
  }

  /** Selecting a timestamp and filtering by name commute. */
  lemma {:induction false} StampedNamed(es: seq<Entry>, t: int)
    ensures Stamped(Named(es), t) == Named(Stamped(es, t))
  {
    if |es| > 0 {
      var x := es[0];
      var h := if x.name != "" then [x] else [];
      var k := if x.lastModified == t then [x] else [];
      StampedNamed(es[1..], t);
      StampedAppend(h, Named(es[1..]), t);
      NamedAppend(k, Stamped(es[1..], t));
      assert [x][1..] == [];
      assert Stamped(h, t) == Named(k);
    }
  }

  /** Inserts `e` in front of the first entry of `es` that is not newer than it. */
  function Insert(e: Entry, es: seq<Entry>): seq<Entry> {
    if |es| == 0 || es[0].lastModified <= e.lastModified then [e] + es
    else [es[0]] + Insert(e, es[1..])
  }

  /** Insertion adds `e` and loses nothing. */
  lemma {:induction false} InsertPermutes(e: Entry, es: seq<Entry>)
    ensures multiset(Insert(e, es)) == multiset(es) + multiset{e}
  {
    if |es| > 0 && es[0].lastModified > e.lastModified {
      InsertPermutes(e, es[1..]);
      assert es == [es[0]] + es[1..];
    }
  }

  /** Insertion into a newest-first sequence keeps it newest first. */
  lemma {:induction false} InsertKeepsOrder(e: Entry, es: seq<Entry>)
    requires NewestFirst(es)
    ensures NewestFirst(Insert(e, es))
  {
    if |es| == 0 || es[0].lastModified <= e.lastModified {
      PrependNewest(e, es);
    } else {
      var rest := Insert(e, es[1..]);
      InsertKeepsOrder(e, es[1..]);
      InsertPermutes(e, es[1..]);
      forall y | y in rest
        ensures y.lastModified <= es[0].lastModified
      {
        assert y in multiset(rest);
      }
      PrependNewest(es[0], rest);
    }
  }

  /** The entries stamped `t` of a sequence with a head: the head, if stamped `t`, then those of the tail. */
  lemma StampedCons(x: Entry, s: seq<Entry>, t: int)
    ensures Stamped([x] + s, t) == (if x.lastModified == t then [x] else []) + Stamped(s, t)
  {
    assert ([x] + s)[1..] == s;
  }

  /** Insertion puts `e` ahead of every entry that shares its timestamp. */
  lemma {:induction false} InsertStamped(e: Entry, es: seq<Entry>, t: int)
    ensures Stamped(Insert(e, es), t) == (if e.lastModified == t then [e] else []) + Stamped(es, t)
  {
    if |es| == 0 || es[0].lastModified <= e.lastModified {
      StampedCons(e, es, t);
    } else {
      var rest := Insert(e, es[1..]);
      InsertStamped(e, es[1..], t);
      StampedCons(es[0], rest, t);
      StampedCons(es[0], es[1..], t);
      assert es == [es[0]] + es[1..];
      if e.lastModified == t {
        assert es[0].lastModified != t;
      }
    }
  }

  /**
   The `sort` step: an insertion sort, newest first. The result is a
   permutation of the input, is newest first, and keeps entries with equal
   timestamps in their input order (it is stable).
   */
  function SortNewestFirst(es: seq<Entry>): (r: seq<Entry>)
    ensures NewestFirst(r)
    ensures multiset(r) == multiset(es)
    ensures forall t :: Stamped(r, t) == Stamped(es, t)
  {
    if |es| == 0 then []
    else
      var rest := SortNewestFirst(es[1..]);
      InsertPermutes(es[0], rest);
      InsertKeepsOrder(es[0], rest);
      InsertStampedAll(es[0], rest);
      assert es == [es[0]] + es[1..];
      Insert(es[0], rest)
  }

  /** `InsertStamped` for every timestamp at once. */
  lemma InsertStampedAll(e: Entry, es: seq<Entry>)
    ensures forall t :: Stamped(Insert(e, es), t) == (if e.lastModified == t then [e] else []) + Stamped(es, t)
  {
    forall t {
      InsertStamped(e, es, t);
    }
  }

  /** The first entry of a sequence heads the entries that share its timestamp. */
  lemma StampedHead(es: seq<Entry>)
    requires |es| > 0
    ensures Stamped(es, es[0].lastModified) == [es[0]] + Stamped(es[1..], es[0].lastModified)
  {
  }

  /**
   Newest-first order together with stability determines the result: two
   newest-first sequences with the same entries per timestamp, in the same
   order, are equal. So any stable newest-first sort returns what
   `SortNewestFirst` returns.
   */
  lemma {:induction false} StableOrderUnique(a: seq<Entry>, b: seq<Entry>)
    requires NewestFirst(a) && NewestFirst(b)
    requires forall t :: Stamped(a, t) == Stamped(b, t)
    ensures a == b
    decreases |a|
  {
    if |a| == 0 {
      if |b| > 0 {
        StampedHead(b);
        assert false;
      }
    } else if |b| == 0 {
      StampedHead(a);
      assert false;
    } else {
      var ta, tb := a[0].lastModified, b[0].lastModified;
      if ta > tb {
        StampedNone(b, ta);
        StampedHead(a);
        assert false;
      } else if tb > ta {
        StampedNone(a, tb);
        StampedHead(b);
        assert false;
      }
      StampedHead(a);
      StampedHead(b);
      assert a[0] == b[0] by {
        assert Stamped(a, ta)[0] == a[0] && Stamped(b, ta)[0] == b[0];
      }
      forall t
        ensures Stamped(a[1..], t) == Stamped(b[1..], t)
      {
        var x := if ta == t then [a[0]] else [];
        assert Stamped(a, t) == x + Stamped(a[1..], t);
        assert Stamped(b, t) == x + Stamped(b[1..], t);
        assert (x + Stamped(a[1..], t))[|x|..] == Stamped(a[1..], t);
        assert (x + Stamped(b[1..], t))[|x|..] == Stamped(b[1..], t);
      }
      StableOrderUnique(a[1..], b[1..]);
      assert a == [a[0]] + a[1..] && b == [b[0]] + b[1..];
    }
  }

  /** Sequences with the same multiset have the same members. */
  lemma SameMembers(a: seq<Entry>, b: seq<Entry>)
    requires multiset(a) == multiset(b)
    ensures forall e :: e in a <==> e in b
  {
    forall e
      ensures e in a <==> e in b
    {
      assert e in a <==> e in multiset(a);
      assert e in b <==> e in multiset(b);
    }
  }

  /** A key ends in `/`, or is empty: the shape of a folder placeholder. */
  predicate FolderKey(key: string) {
    key == "" || key[|key| - 1] == '/'
  }

  /** The `map` and `filter` steps keep exactly the entries, with a name, of the objects. */
  lemma VisibleEntries(raw: seq<RawObject>)
    ensures forall e :: e in Named(Entries(raw)) ==> !FolderKey(e.key) && exists i :: 0 <= i < |raw| && e == ToEntry(raw[i])
    ensures forall i :: 0 <= i < |raw| && !FolderKey(raw[i].key) ==> ToEntry(raw[i]) in Named(Entries(raw))
  {
    var es := Entries(raw);
    forall e | e in Named(es)
      ensures !FolderKey(e.key) && exists i :: 0 <= i < |raw| && e == ToEntry(raw[i])
    {
      var i :| 0 <= i < |es| && es[i] == e;
      assert e == ToEntry(raw[i]);
      LastSegmentShape(e.key, '/');
    }
    forall i | 0 <= i < |raw| && !FolderKey(raw[i].key)
      ensures ToEntry(raw[i]) in Named(es)
    {
      assert es[i] == ToEntry(raw[i]);
      LastSegmentShape(raw[i].key, '/');
    }
  }

  /**
   The whole normaliser, `map(...).filter(f => f.name).sort(newest first)`.
   Every entry is built from one of the objects, has as name its key's last
   `/` segment, which is not empty, and has its key's category; entries of
   folder keys are dropped and every other object has its entry in the result;
   the entries are ordered newest first, form a permutation of the filtered
   entries, and keep the input order among equal timestamps.
   */
  function Normalise(raw: seq<RawObject>): (r: seq<Entry>)
    ensures forall e :: e in r ==> exists i :: 0 <= i < |raw| && e == ToEntry(raw[i])
    ensures forall e :: e in r ==> exists i :: 0 <= i < |raw| && e.key == raw[i].key && e.size == raw[i].size && e.lastModified == raw[i].lastModified
    ensures forall e :: e in r ==> e.name != "" && e.name == LastSegment(e.key, '/') && e.fileType == Classify(e.key)
    ensures forall e :: e in r ==> !FolderKey(e.key)
    ensures forall i :: 0 <= i < |raw| && !FolderKey(raw[i].key) ==> ToEntry(raw[i]) in r
    ensures NewestFirst(r)
    ensures multiset(r) == multiset(Named(Entries(raw)))
    ensures forall t :: Stamped(r, t) == Stamped(Named(Entries(raw)), t)
    ensures forall t :: Stamped(r, t) == Named(Stamped(Entries(raw), t))
  {
    var v := Named(Entries(raw));
    VisibleEntries(raw);
    var r := SortNewestFirst(v);
    SameMembers(r, v);
    forall t
      ensures Stamped(r, t) == Named(Stamped(Entries(raw), t))
    {
      StampedNamed(Entries(raw), t);
    }
    r
  }
}
