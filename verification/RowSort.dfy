/**
 Sorting the rows of a trace. A row is a tuple of start, end, weights, kernel name and kind of step, and the weights are
 a dictionary: two rows are compared field by field up to the first difference, and dictionaries have no order, nor
 has an unknown kind with a known one. Kernel names are numbered in their order.
 */
module RowSort {
  import opened Wrappers
  import opened BusySweep

  datatype Entry = Entry(row: Row, name: int)

  predicate Tied(x: Entry, y: Entry) {
    x.row.start == y.row.start && x.row.end == y.row.end
  }

  predicate TiedByName(x: Entry, y: Entry) {
    Tied(x, y) && x.row.weights == y.row.weights && x.name == y.name
  }

  /** Comparing the two is an error. */
  predicate Clash(x: Entry, y: Entry) {
    || (Tied(x, y) && x.row.weights != y.row.weights)
    || (TiedByName(x, y) && x.row.kind.None? != y.row.kind.None?)
  }

  predicate Earlier(s: string, t: string) {
    t != [] && (s == [] || s[0] < t[0] || (s[0] == t[0] && Earlier(s[1..], t[1..])))
  }

  /** Whether `x` is less than `y`, or `None` where the comparison raises. */
  function Less(x: Entry, y: Entry): (r: Option<bool>)
    ensures r.None? <==> Clash(x, y)
  {
    var a, b := x.row, y.row;
    if a.start != b.start then Some(a.start < b.start)
    else if a.end != b.end then Some(a.end < b.end)
    else if a.weights != b.weights then None
    else if x.name != y.name then Some(x.name < y.name)
    else match (a.kind, b.kind)
      case (None, None) => Some(false)
      case (Some(s), Some(t)) => Some(Earlier(s, t))
      case _ => None
  }

  /** By start, then end, then name. */
  predicate Follows(x: Entry, y: Entry) {
    || x.row.start < y.row.start
    || (x.row.start == y.row.start && x.row.end < y.row.end)
    || (Tied(x, y) && x.name <= y.name)
  }

  ghost predicate Ordered(s: seq<Entry>) {
    forall i, j :: 0 <= i < j < |s| ==> Follows(s[i], s[j])
  }

  ghost predicate NoClash(s: seq<Entry>) {
    forall i, j :: 0 <= i < |s| && 0 <= j < |s| ==> !Clash(s[i], s[j])
  }

  ghost predicate ClashesWith(s: seq<Entry>, x: Entry) {
    exists i :: 0 <= i < |s| && Clash(x, s[i])
  }

  /** Everything from `k` on comes behind `x`; an entry that does not decides for all before it. */
  lemma WalkStops(s: seq<Entry>, x: Entry, k: nat)
    requires Ordered(s) && NoClash(s) && k <= |s|
    requires forall i :: k <= i < |s| ==> Less(x, s[i]) == Some(true)
    requires k > 0 ==> Less(x, s[k - 1]) == Some(false)
    ensures !ClashesWith(s, x) && forall i :: 0 <= i < k ==> Follows(s[i], x)
  {
    forall i | 0 <= i < k ensures Follows(s[i], x) && !Clash(x, s[i]) {
      if i < k - 1 {
        assert Follows(s[i], s[k - 1]) && Follows(s[k - 1], x);
        assert !Clash(s[i], s[k - 1]);
      }
    }
  }

  lemma NoClashMore(s: seq<Entry>, x: Entry, now: seq<Entry>)
    requires NoClash(s) && !ClashesWith(s, x) && multiset(now) == multiset(s) + multiset{x}
    ensures NoClash(now)
  {
    forall i, j | 0 <= i < |now| && 0 <= j < |now| ensures !Clash(now[i], now[j]) {
      InOne(s, x, now, i);
      InOne(s, x, now, j);
    }
  }

  lemma InOne(s: seq<Entry>, x: Entry, now: seq<Entry>, i: nat)
    requires i < |now| && multiset(now) == multiset(s) + multiset{x}
    ensures now[i] == x || now[i] in s
  {
    assert now[i] in multiset(now);
  }

  /** Puts `x` into its place, looking from the back. */
  method InsertRow(s: seq<Entry>, x: Entry) returns (r: Option<seq<Entry>>)
    requires Ordered(s) && NoClash(s)
    ensures r.None? <==> ClashesWith(s, x)
    ensures r.Some? ==> multiset(r.value) == multiset(s) + multiset{x} && Ordered(r.value)
  {
    var k := |s|;
    while k > 0
      invariant 0 <= k <= |s| && forall i :: k <= i < |s| ==> Less(x, s[i]) == Some(true)
    {
      var less := Less(x, s[k - 1]);
      if less.None? {
        return None;
      }
      if !less.value {
        break;
      }
      k := k - 1;
    }
    WalkStops(s, x, k);
    Placed(s, x, k);
    r := Some(s[..k] + [x] + s[k..]);
  }

  lemma Placed(s: seq<Entry>, x: Entry, k: nat)
    requires Ordered(s) && k <= |s|
    requires (forall i :: 0 <= i < k ==> Follows(s[i], x)) && forall i :: k <= i < |s| ==> Less(x, s[i]) == Some(true)
    ensures Ordered(s[..k] + [x] + s[k..]) && multiset(s[..k] + [x] + s[k..]) == multiset(s) + multiset{x}
  {
    forall i | k <= i < |s| ensures Follows(x, s[i]) { LessFollows(x, s[i]); }
    JoinOrdered(s[..k], x, s[k..]);
    assert s == s[..k] + s[k..];
  }

  lemma LessFollows(x: Entry, y: Entry)
    requires Less(x, y) == Some(true)
    ensures Follows(x, y)
  {
  }

  lemma JoinOrdered(a: seq<Entry>, x: Entry, b: seq<Entry>)
    requires Ordered(a) && Ordered(b) && forall i, j :: 0 <= i < |a| && 0 <= j < |b| ==> Follows(a[i], b[j])
    requires (forall i :: 0 <= i < |a| ==> Follows(a[i], x)) && forall i :: 0 <= i < |b| ==> Follows(x, b[i])
    ensures Ordered(a + [x] + b)
  {
  }

  /**
   Sorting fails if and only if two rows clash: they share start and end and have different weights, or share all but
   the kind and only one kind is known. Otherwise the rows come out in the order the windows rely on.
   */
  method SortRows(rows: seq<Entry>) returns (r: Option<seq<Entry>>)
    ensures r.None? <==> !NoClash(rows)
    ensures r.Some? ==> multiset(r.value) == multiset(rows) && Ordered(r.value)
  {
    var s: seq<Entry> := [];
    var i := 0;
    while i < |rows|
      invariant 0 <= i <= |rows| && multiset(s) == multiset(rows[..i]) && Ordered(s) && NoClash(s)
    {
      assert rows[..i + 1] == rows[..i] + [rows[i]];
      var more := InsertRow(s, rows[i]);
      if more.None? {
        ClashWasThere(rows, i, s);
        return None;
      }
      NoClashMore(s, rows[i], more.value);
      s := more.value;
      i := i + 1;
    }
    assert rows[..i] == rows;
    SameNoClash(s, rows);
    r := Some(s);
  }

  lemma ClashWasThere(rows: seq<Entry>, i: nat, s: seq<Entry>)
    requires i < |rows| && multiset(s) == multiset(rows[..i]) && ClashesWith(s, rows[i])
    ensures !NoClash(rows)
  {
    var j :| 0 <= j < |s| && Clash(rows[i], s[j]);
    assert s[j] in multiset(s);
    assert s[j] in rows[..i];
    var k :| 0 <= k < i && rows[k] == s[j];
    assert Clash(rows[i], rows[k]);
  }

  lemma SameNoClash(s: seq<Entry>, rows: seq<Entry>)
    requires NoClash(s) && multiset(s) == multiset(rows)
    ensures NoClash(rows)
  {
    forall i, j | 0 <= i < |rows| && 0 <= j < |rows| ensures !Clash(rows[i], rows[j]) {
      assert rows[i] in multiset(rows) && rows[j] in multiset(rows);
      assert rows[i] in s && rows[j] in s;
    }
  }

  function RowsOf(s: seq<Entry>): (r: seq<Row>)
    ensures |r| == |s|
  {
    seq(|s|, i requires 0 <= i < |s| => s[i].row)
  }

  /** What the sort returns is in the order the bisections need. */
  lemma SortedIsInOrder(s: seq<Entry>)
    requires Ordered(s) && forall i :: 0 <= i < |s| ==> s[i].row.start <= s[i].row.end
    ensures InWindowOrder(RowsOf(s))
  {
    var r := RowsOf(s);
    forall i, j | 0 <= i < j < |r| ensures r[i].start <= r[j].start {
      assert Follows(s[i], s[j]);
    }
  }

  /** A launch from a step and one from nowhere at the same time, and a shared kernel beside a plain one. */
  lemma RowsThatClash(start: int, end: int, name: int, kind: string)
    ensures Clash(Entry(Row(start, end, Whole(M), None), name), Entry(Row(start, end, Whole(M), Some(kind)), name))
    ensures Clash(Entry(Row(start, end, Whole(P3), None), name),
                  Entry(Row(start, end, SharedWeights(DirectCopy), None), name))
  {
    assert Whole(P3).m != SharedWeights(DirectCopy).m;
  }
}
