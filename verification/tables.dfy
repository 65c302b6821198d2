/** Database tables as finite maps from primary key to row. Keys are handed
    out in increasing order, so "the newest row" (the source's
    `.order_by("-created_at").first()`) is the matching row with the
    largest key. */
module Tables {
  import opened Wrappers

  datatype RawTable<T> = RawTable(rows: map<nat, T>, next: nat)

  /** Every stored key was handed out before `next`. */
  type Table<T> = t: RawTable<T> | forall k :: k in t.rows ==> k < t.next
    witness RawTable(map[], 0)

  function Empty<T>(): Table<T> {
    RawTable(map[], 0)
  }

  /** `objects.create(...)`: stores `v` under a fresh key and returns it. */
  function Insert<T>(t: Table<T>, v: T): (r: (Table<T>, nat))
    ensures r.1 !in t.rows && r.1 == t.next
    ensures r.0.rows == t.rows[r.1 := v] && r.0.next == t.next + 1
  {
    (RawTable(t.rows[t.next := v], t.next + 1), t.next)
  }

  /** `save()` of an existing row. */
  function Put<T>(t: Table<T>, k: nat, v: T): (r: Table<T>)
    requires k in t.rows
    ensures r.rows == t.rows[k := v] && r.next == t.next
  {
    RawTable(t.rows[k := v], t.next)
  }

  predicate Any<T>(t: Table<T>, p: T -> bool) {
    exists k :: k in t.rows && p(t.rows[k])
  }

  function NewestBelow<T>(rows: map<nat, T>, n: nat, p: T -> bool): (r: Option<nat>)
    ensures r.Some? ==> r.value < n && r.value in rows && p(rows[r.value])
    ensures r.Some? ==> forall k :: r.value < k < n && k in rows ==> !p(rows[k])
    ensures r.None? ==> forall k :: k < n && k in rows ==> !p(rows[k])
    decreases n
  {
    if n == 0 then None
    else if n - 1 in rows && p(rows[n - 1]) then Some(n - 1)
    else NewestBelow(rows, n - 1, p)
  }

  /** The newest row satisfying `p`, if any: `filter(p).first()` under a
      newest-first ordering. */
  function Newest<T>(t: Table<T>, p: T -> bool): (r: Option<nat>)
    ensures r.Some? ==> r.value in t.rows && p(t.rows[r.value])
    ensures r.Some? ==> forall k :: k in t.rows && p(t.rows[k]) ==> k <= r.value
    ensures r.None? <==> !Any(t, p)
  {
    NewestBelow(t.rows, t.next, p)
  }

  /** Two tables whose rows satisfying `p` sit under the same keys have
      the same newest such row, whatever else differs. */
  lemma NewestUnchanged<T>(t: Table<T>, t': Table<T>, p: T -> bool)
    requires forall k :: (k in t.rows && p(t.rows[k])) <==> (k in t'.rows && p(t'.rows[k]))
    ensures Newest(t, p) == Newest(t', p)
  {
    var a, b := Newest(t, p), Newest(t', p);
    if a.Some? && b.Some? {
      assert a.value <= b.value && b.value <= a.value;
    }
  }

  /** The keys of the rows satisfying `p`. */
  function Matching<T>(t: Table<T>, p: T -> bool): (s: set<nat>)
    ensures forall k :: k in s <==> k in t.rows && p(t.rows[k])
  {
    set k | k in t.rows && p(t.rows[k])
  }

  /** `filter(p).count()`: the number of rows `filter(p).delete()` would
      remove. */
  function Count<T>(t: Table<T>, p: T -> bool): (n: nat)
    ensures n == |t.rows.Keys - DeleteWhere(t, p).rows.Keys|
    ensures n == |Matching(t, p)|
  {
    assert t.rows.Keys - DeleteWhere(t, p).rows.Keys == Matching(t, p);
    |Matching(t, p)|
  }

  /** `filter(p).update(...)`: rewrites exactly the rows satisfying `p`. */
  function UpdateWhere<T>(t: Table<T>, p: T -> bool, f: T -> T): (r: Table<T>)
    ensures r.next == t.next && r.rows.Keys == t.rows.Keys
    ensures forall k :: k in t.rows ==> r.rows[k] == (if p(t.rows[k]) then f(t.rows[k]) else t.rows[k])
  {
    RawTable(map k | k in t.rows :: if p(t.rows[k]) then f(t.rows[k]) else t.rows[k], t.next)
  }

  /** `filter(p).delete()`: drops exactly the rows satisfying `p`. */
  function DeleteWhere<T>(t: Table<T>, p: T -> bool): (r: Table<T>)
    ensures r.next == t.next
    ensures forall k :: k in r.rows <==> k in t.rows && !p(t.rows[k])
    ensures forall k :: k in r.rows ==> r.rows[k] == t.rows[k]
  {
    RawTable(map k | k in t.rows && !p(t.rows[k]) :: t.rows[k], t.next)
  }
}
