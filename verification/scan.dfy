/** The neighbourhood scans of `update` and `refreshPrefetchQueue` in drive.js:
    the square of chunk offsets around the centre chunk, walked row by row, the
    queue entries it yields, and the stable nearest-first sort applied to them. */
module Scan {
  import opened Common
  import opened Grid
  import opened Terrain

  /** Side of the square of radius `r`. */
  function Side(r: nat): nat
  {
    2 * r + 1
  }

  /** The offsets `(dx, dz)` with `-r <= dx, dz <= r`, `dz` in the outer loop and
      `dx` in the inner one. */
  function Offsets(r: nat): (o: seq<(int, int)>)
    ensures |o| == Side(r) * Side(r)
  {
    var n := Side(r);
    seq(n * n, i requires 0 <= i < n * n => (i % n - r, i / n - r))
  }

  predicate InRadius(d: int, r: int)
  {
    -r <= d <= r
  }

  /** Every offset of the scan lies in the square. */
  lemma OffsetInSquare(r: nat, i: int)
    requires 0 <= i < |Offsets(r)|
    ensures InRadius(Offsets(r)[i].0, r) && InRadius(Offsets(r)[i].1, r)
  {
    DivBelow(i, Side(r), Side(r));
  }

  /** Every offset of the square is scanned, at row-major position
      `(dz + r) * side + (dx + r)`. */
  lemma OffsetScanned(r: nat, dx: int, dz: int)
    requires InRadius(dx, r) && InRadius(dz, r)
    ensures var i := (dz + r) * Side(r) + (dx + r);
            0 <= i < |Offsets(r)| && Offsets(r)[i] == (dx, dz)
  {
    var n := Side(r);
    var i := (dz + r) * n + (dx + r);
    MulMono(n - 1, dz + r, n);
    assert i < n * n by {
      assert (n - 1) * n + n == n * n;
    }
    DivModUnique(i, n, dz + r, dx + r);
  }

  /** No offset is scanned twice. */
  lemma OffsetsDistinct(r: nat, i: int, j: int)
    requires 0 <= i < |Offsets(r)| && 0 <= j < |Offsets(r)|
    requires Offsets(r)[i] == Offsets(r)[j]
    ensures i == j
  {
    var n := Side(r);
    assert i % n == j % n && i / n == j / n;
    assert i == (i / n) * n + i % n;
    assert j == (j / n) * n + j % n;
  }

  /** The chunk at an offset from the centre. */
  function KeyAt(center: Key, d: (int, int)): Key
  {
    Key(center.cx + d.0, center.cz + d.1)
  }

  function Sq(d: int): int
  {
    d * d
  }

  /** The queue entry of an offset: its key and `dx * dx + dz * dz`. */
  function EntryAt(center: Key, d: (int, int)): Entry
  {
    Entry(KeyAt(center, d), Sq(d.0) + Sq(d.1))
  }

  /** The keys at the given offsets from the centre. */
  function KeysAt(center: Key, offs: seq<(int, int)>): set<Key>
  {
    set i | 0 <= i < |offs| :: KeyAt(center, offs[i])
  }

  lemma KeysAtTail(center: Key, offs: seq<(int, int)>)
    requires |offs| > 0
    ensures KeysAt(center, offs) == {KeyAt(center, offs[0])} + KeysAt(center, offs[1..])
  {
    forall k | k in KeysAt(center, offs[1..])
      ensures k in KeysAt(center, offs)
    {
      var i :| 0 <= i < |offs[1..]| && KeyAt(center, offs[1..][i]) == k;
      assert offs[1..][i] == offs[i + 1];
    }
    forall k | k in KeysAt(center, offs) && k != KeyAt(center, offs[0])
      ensures k in KeysAt(center, offs[1..])
    {
      var i :| 0 <= i < |offs| && KeyAt(center, offs[i]) == k;
      assert i > 0;
      assert offs[1..][i - 1] == offs[i];
    }
  }

  /** The entries of the scanned offsets whose keys `admit` accepts, in scan
      order. Each carries its key's squared distance from the centre. */
  function ScanEntries(center: Key, offs: seq<(int, int)>, admit: Key -> bool): (es: seq<Entry>)
    ensures forall x :: x in es ==> admit(x.key) && x.dist2 == Dist2(center, x.key) && x.key in KeysAt(center, offs)
    ensures forall i :: 0 <= i < |offs| && admit(KeyAt(center, offs[i])) ==> EntryAt(center, offs[i]) in es
  {
    if |offs| == 0 then []
    else
      var e := EntryAt(center, offs[0]);
      var rest := ScanEntries(center, offs[1..], admit);
      KeysAtTail(center, offs);
      assert forall i :: 1 <= i < |offs| ==> offs[i] == offs[1..][i - 1];
      (if admit(e.key) then [e] else []) + rest
  }

  predicate DistinctKeys(es: seq<Entry>)
  {
    forall i, j :: 0 <= i < |es| && 0 <= j < |es| && i != j ==> es[i].key != es[j].key
  }

  function KeysOf(es: seq<Entry>): set<Key>
  {
    set i | 0 <= i < |es| :: es[i].key
  }

  predicate DistinctOffsets(offs: seq<(int, int)>)
  {
    forall i, j :: 0 <= i < |offs| && 0 <= j < |offs| && i != j ==> offs[i] != offs[j]
  }

  /** Prepending an entry whose key is new keeps the keys distinct. */
  lemma ConsDistinct(e: Entry, rest: seq<Entry>)
    requires DistinctKeys(rest)
    requires forall x :: x in rest ==> x.key != e.key
    ensures DistinctKeys([e] + rest)
  {
    var es := [e] + rest;
    forall i, j | 0 <= i < |es| && 0 <= j < |es| && i != j
      ensures es[i].key != es[j].key
    {
      if i > 0 && j > 0 {
        assert es[i] == rest[i - 1] && es[j] == rest[j - 1];
      } else if i == 0 {
        assert es[j] == rest[j - 1];
        assert rest[j - 1] in rest;
      } else {
        assert es[i] == rest[i - 1];
        assert rest[i - 1] in rest;
      }
    }
  }

  /** Distinct offsets give entries with distinct keys. */
  lemma {:induction false} ScanDistinct(center: Key, offs: seq<(int, int)>, admit: Key -> bool)
    requires DistinctOffsets(offs)
    ensures DistinctKeys(ScanEntries(center, offs, admit))
  {
    if |offs| > 0 {
      var rest := ScanEntries(center, offs[1..], admit);
      assert DistinctOffsets(offs[1..]) by {
        forall i, j | 0 <= i < |offs[1..]| && 0 <= j < |offs[1..]| && i != j
          ensures offs[1..][i] != offs[1..][j]
        {
          assert offs[1..][i] == offs[i + 1] && offs[1..][j] == offs[j + 1];
        }
      }
      ScanDistinct(center, offs[1..], admit);
      var e := EntryAt(center, offs[0]);
      forall x | x in rest
        ensures x.key != e.key
      {
        var i :| 0 <= i < |offs[1..]| && KeyAt(center, offs[1..][i]) == x.key;
        assert offs[1..][i] == offs[i + 1];
        assert offs[i + 1] != offs[0];
      }
      if admit(e.key) {
        ConsDistinct(e, rest);
      } else {
        assert ScanEntries(center, offs, admit) == [] + rest;
      }
    }
  }

  lemma OffsetsAreDistinct(r: nat)
    ensures DistinctOffsets(Offsets(r))
  {
    forall i, j | 0 <= i < |Offsets(r)| && 0 <= j < |Offsets(r)| && i != j
      ensures Offsets(r)[i] != Offsets(r)[j]
    {
      if Offsets(r)[i] == Offsets(r)[j] {
        OffsetsDistinct(r, i, j);
      }
    }
  }

  /** Whether `k` lies in the square of radius `r` around `center`. */
  predicate InSquare(center: Key, r: int, k: Key)
  {
    InRadius(k.cx - center.cx, r) && InRadius(k.cz - center.cz, r)
  }

  /** Every key the scan of radius `r` yields is an admitted key of the square. */
  lemma ScanKeysInSquare(center: Key, r: nat, admit: Key -> bool, k: Key)
    requires k in KeysOf(ScanEntries(center, Offsets(r), admit))
    ensures InSquare(center, r, k) && admit(k)
  {
    var offs := Offsets(r);
    var es := ScanEntries(center, offs, admit);
    var j :| 0 <= j < |es| && es[j].key == k;
    assert es[j] in es;
    var i :| 0 <= i < |offs| && KeyAt(center, offs[i]) == k;
    OffsetInSquare(r, i);
  }

  /** Every admitted key of the square is yielded by the scan of radius `r`. */
  lemma SquareKeysScanned(center: Key, r: nat, admit: Key -> bool, k: Key)
    requires InSquare(center, r, k) && admit(k)
    ensures k in KeysOf(ScanEntries(center, Offsets(r), admit))
  {
    var offs := Offsets(r);
    var es := ScanEntries(center, offs, admit);
    var dx, dz := k.cx - center.cx, k.cz - center.cz;
    OffsetScanned(r, dx, dz);
    var i := (dz + r) * Side(r) + (dx + r);
    assert KeyAt(center, offs[i]) == k;
    var j :| 0 <= j < |es| && es[j] == EntryAt(center, offs[i]);
  }

  /** The keys the scan of radius `r` yields are exactly the admitted keys of the
      square, each exactly once. */
  lemma ScanKeys(center: Key, r: nat, admit: Key -> bool)
    ensures var es := ScanEntries(center, Offsets(r), admit);
            DistinctKeys(es)
            && forall k :: k in KeysOf(es) <==> InSquare(center, r, k) && admit(k)
  {
    OffsetsAreDistinct(r);
    ScanDistinct(center, Offsets(r), admit);
    forall k
      ensures k in KeysOf(ScanEntries(center, Offsets(r), admit)) <==> InSquare(center, r, k) && admit(k)
    {
      if k in KeysOf(ScanEntries(center, Offsets(r), admit)) {
        ScanKeysInSquare(center, r, admit, k);
      }
      if InSquare(center, r, k) && admit(k) {
        SquareKeysScanned(center, r, admit, k);
      }
    }
  }

  /** Squared offset, in chunks, of `k` from `center`. */
  function Dist2(center: Key, k: Key): int
  {
    Sq(k.cx - center.cx) + Sq(k.cz - center.cz)
  }

  // ---------------------------------------------------------------------------
  // Nearest-first ordering

  predicate SortedByDist(es: seq<Entry>)
  {
    forall i, j :: 0 <= i < j < |es| ==> es[i].dist2 <= es[j].dist2
  }

  lemma KeysOfAppend(s: seq<Entry>, e: Entry)
    ensures KeysOf(s + [e]) == KeysOf(s) + {e.key}
    ensures DistinctKeys(s) && e.key !in KeysOf(s) ==> DistinctKeys(s + [e])
  {
    var t := s + [e];
    assert t[|s|] == e;
    forall k | k in KeysOf(s)
      ensures k in KeysOf(t)
    {
      var i :| 0 <= i < |s| && s[i].key == k;
      assert t[i] == s[i];
    }
  }

  /** Insert `e` after every entry that is not farther than it, so that entries
      at equal distance keep their order. */
  function InsertByDist(sorted: seq<Entry>, e: Entry): (r: seq<Entry>)
    requires SortedByDist(sorted)
    ensures SortedByDist(r)
    ensures multiset(r) == multiset(sorted) + multiset{e}
    ensures forall x :: x in r <==> x in sorted || x == e
    decreases |sorted|
  {
    if |sorted| == 0 then [e]
    else
      var n := |sorted| - 1;
      var last := sorted[n];
      if last.dist2 <= e.dist2 then
        assert forall x :: x in sorted ==> x.dist2 <= e.dist2;
        AppendSorted(sorted, e);
        sorted + [e]
      else
        var prefix := sorted[..n];
        assert sorted == prefix + [last];
        var front := InsertByDist(prefix, e);
        assert forall x :: x in front ==> x.dist2 <= last.dist2;
        AppendSorted(front, last);
        front + [last]
  }

  /** Appending an entry no nearer than any present keeps the order. */
  lemma AppendSorted(s: seq<Entry>, e: Entry)
    requires SortedByDist(s) && forall x :: x in s ==> x.dist2 <= e.dist2
    ensures SortedByDist(s + [e])
  {
    forall i, j | 0 <= i < j < |s| + 1
      ensures (s + [e])[i].dist2 <= (s + [e])[j].dist2
    {
      if j == |s| {
        assert s[i] in s;
      }
    }
  }

  /** Inserting adds exactly the new entry's key, and a key not yet present keeps
      the keys distinct. */
  lemma {:induction false} InsertKeys(sorted: seq<Entry>, e: Entry)
    requires SortedByDist(sorted)
    ensures KeysOf(InsertByDist(sorted, e)) == KeysOf(sorted) + {e.key}
    ensures DistinctKeys(sorted) && e.key !in KeysOf(sorted) ==> DistinctKeys(InsertByDist(sorted, e))
    decreases |sorted|
  {
    if |sorted| == 0 {
      assert InsertByDist(sorted, e) == [e];
      assert KeysOf([e]) == {e.key} by {
        assert [e][0] == e;
      }
    } else {
      var n := |sorted| - 1;
      var last := sorted[n];
      if last.dist2 <= e.dist2 {
        KeysOfAppend(sorted, e);
      } else {
        var prefix := sorted[..n];
        assert sorted == prefix + [last];
        var front := InsertByDist(prefix, e);
        assert KeysOf(front) == KeysOf(prefix) + {e.key}
               && (DistinctKeys(prefix) && e.key !in KeysOf(prefix) ==> DistinctKeys(front)) by {
          InsertKeys(prefix, e);
        }
        assert KeysOf(sorted) == KeysOf(prefix) + {last.key} by {
          KeysOfAppend(prefix, last);
        }
        KeysOfAppend(front, last);
        if DistinctKeys(sorted) {
          DistinctSplit(sorted);
        }
      }
    }
  }

  /** Dropping the last entry of a list with distinct keys leaves distinct keys,
      none of them the dropped entry's. */
  lemma DistinctSplit(sorted: seq<Entry>)
    requires |sorted| > 0 && DistinctKeys(sorted)
    ensures DistinctKeys(sorted[..|sorted| - 1])
    ensures sorted[|sorted| - 1].key !in KeysOf(sorted[..|sorted| - 1])
  {
    var n := |sorted| - 1;
    var prefix := sorted[..n];
    forall i, j | 0 <= i < |prefix| && 0 <= j < |prefix| && i != j
      ensures prefix[i].key != prefix[j].key
    {
      assert prefix[i] == sorted[i] && prefix[j] == sorted[j];
    }
    forall i | 0 <= i < |prefix|
      ensures prefix[i].key != sorted[n].key
    {
      assert sorted[i] == prefix[i];
    }
  }

  /** The stable sort by `dist2` (`Array.prototype.sort` is stable): insertion of
      each entry in scan order. */
  function SortByDist(es: seq<Entry>): (r: seq<Entry>)
    ensures SortedByDist(r)
    ensures multiset(r) == multiset(es)
    decreases |es|
  {
    if |es| == 0 then []
    else
      var n := |es| - 1;
      assert es == es[..n] + [es[n]];
      InsertByDist(SortByDist(es[..n]), es[n])
  }

  /** Sorting keeps the set of keys, and keeps distinct keys distinct. */
  lemma {:induction false} SortKeys(es: seq<Entry>)
    ensures KeysOf(SortByDist(es)) == KeysOf(es)
    ensures DistinctKeys(es) ==> DistinctKeys(SortByDist(es))
    decreases |es|
  {
    if |es| > 0 {
      var n := |es| - 1;
      var front := es[..n];
      assert es == front + [es[n]];
      SortKeys(front);
      InsertKeys(SortByDist(front), es[n]);
      KeysOfAppend(front, es[n]);
      if DistinctKeys(es) {
        assert DistinctKeys(front) by {
          forall i, j | 0 <= i < |front| && 0 <= j < |front| && i != j
            ensures front[i].key != front[j].key
          {
            assert front[i] == es[i] && front[j] == es[j];
          }
        }
        forall i | 0 <= i < |front|
          ensures front[i].key != es[n].key
        {
          assert es[i] == front[i];
        }
      }
    }
  }
}
