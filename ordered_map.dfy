/** `std::map<std::string, std::string>` as a strictly sorted association
    list: iteration visits the keys in increasing `std::string` order, which
    the client relies on when it writes event bodies, logs out and renders
    summaries. */
module OrderedMaps {
  import opened Wrappers
  import opened Text

  datatype Entry = Entry(key: string, value: string)

  /** `std::string::operator<`: lexicographic on character codes, a proper
      prefix before its extensions. */
  predicate Less(a: string, b: string) {
    if a == [] then b != []
    else if b == [] then false
    else if a[0] != b[0] then a[0] < b[0]
    else Less(a[1..], b[1..])
  }

  lemma LessIrreflexive(a: string)
    ensures !Less(a, a)
  {
  }

  lemma LessAsymmetric(a: string, b: string)
    ensures Less(a, b) ==> !Less(b, a)
  {
  }

  lemma LessTotal(a: string, b: string)
    ensures a == b || Less(a, b) || Less(b, a)
  {
    if a != [] && b != [] && a[0] == b[0] {
      LessTotal(a[1..], b[1..]);
      assert a == [a[0]] + a[1..];
      assert b == [b[0]] + b[1..];
    }
  }

  lemma LessTransitive(a: string, b: string, c: string)
    requires Less(a, b) && Less(b, c)
    ensures Less(a, c)
  {
    if a != [] && a[0] == b[0] && b[0] == c[0] {
      LessTransitive(a[1..], b[1..], c[1..]);
    }
  }

  /** Keys strictly increase: the iteration order of a `std::map`, and no key
      twice. */
  predicate Sorted(m: seq<Entry>) {
    forall i, j :: 0 <= i < j < |m| ==> Less(m[i].key, m[j].key)
  }

  function Keys(m: seq<Entry>): set<string> {
    set i | 0 <= i < |m| :: m[i].key
  }

  lemma KeysCons(e: Entry, t: seq<Entry>)
    ensures Keys([e] + t) == {e.key} + Keys(t)
  {
    var m := [e] + t;
    assert m[0].key == e.key;
    forall x | x in Keys(m) ensures x in {e.key} + Keys(t) {
      var i :| 0 <= i < |m| && m[i].key == x;
      if i > 0 { assert t[i - 1].key == x; }
    }
    forall x | x in Keys(t) ensures x in Keys(m) {
      var i :| 0 <= i < |t| && t[i].key == x;
      assert m[i + 1].key == x;
    }
  }

  lemma KeysSnoc(t: seq<Entry>, e: Entry)
    ensures Keys(t + [e]) == Keys(t) + {e.key}
  {
    var m := t + [e];
    assert m[|t|].key == e.key;
    forall x | x in Keys(t) ensures x in Keys(m) {
      var i :| 0 <= i < |t| && t[i].key == x;
      assert m[i].key == x;
    }
  }

  /** `find(k)`: the value stored under `k`. */
  function Get(m: seq<Entry>, k: string): (r: Option<string>)
    ensures r.Some? <==> k in Keys(m)
    ensures r.Some? ==> Entry(k, r.value) in m
  {
    if m == [] then None
    else if m[0].key == k then Some(m[0].value)
    else
      assert m == [m[0]] + m[1..];
      KeysCons(m[0], m[1..]);
      Get(m[1..], k)
  }

  /** In a sorted map the value of a key is the one stored beside it. */
  lemma GetOfSorted(m: seq<Entry>, i: nat)
    requires Sorted(m) && i < |m|
    ensures Get(m, m[i].key) == Some(m[i].value)
  {
    if i > 0 {
      LessIrreflexive(m[i].key);
      assert m[0].key != m[i].key;
      GetOfSorted(m[1..], i - 1);
    }
  }

  /** `m[k] = v`: a new key is inserted at its place in the order, an
      existing key gets the new value. */
  function Put(m: seq<Entry>, k: string, v: string): (r: seq<Entry>)
    requires Sorted(m)
    ensures Sorted(r)
    ensures Keys(r) == Keys(m) + {k}
    ensures forall x :: Get(r, x) == if x == k then Some(v) else Get(m, x)
  {
    if m == [] then
      assert [Entry(k, v)][0].key == k;
      [Entry(k, v)]
    else if m[0].key == k then
      PutReplaces(m, k, v);
      [Entry(k, v)] + m[1..]
    else if Less(k, m[0].key) then
      PutInFront(m, k, v);
      [Entry(k, v)] + m
    else
      PutLater(m, k, v, Put(m[1..], k, v));
      [m[0]] + Put(m[1..], k, v)
  }

  lemma PutReplaces(m: seq<Entry>, k: string, v: string)
    requires Sorted(m) && m != [] && m[0].key == k
    ensures Sorted([Entry(k, v)] + m[1..])
    ensures Keys([Entry(k, v)] + m[1..]) == Keys(m) + {k}
    ensures forall x :: Get([Entry(k, v)] + m[1..], x) == if x == k then Some(v) else Get(m, x)
  {
    assert m == [m[0]] + m[1..];
    KeysCons(m[0], m[1..]);
    KeysCons(Entry(k, v), m[1..]);
  }

  lemma PutInFront(m: seq<Entry>, k: string, v: string)
    requires Sorted(m) && m != [] && Less(k, m[0].key)
    ensures Sorted([Entry(k, v)] + m)
    ensures Keys([Entry(k, v)] + m) == Keys(m) + {k}
    ensures forall x :: Get([Entry(k, v)] + m, x) == if x == k then Some(v) else Get(m, x)
  {
    forall j | 0 < j < |m| ensures Less(k, m[j].key) {
      LessTransitive(k, m[0].key, m[j].key);
    }
    KeysCons(Entry(k, v), m);
  }

  lemma PutLater(m: seq<Entry>, k: string, v: string, rest: seq<Entry>)
    requires Sorted(m) && m != [] && m[0].key != k && !Less(k, m[0].key)
    requires Sorted(rest) && Keys(rest) == Keys(m[1..]) + {k}
    requires forall x :: Get(rest, x) == if x == k then Some(v) else Get(m[1..], x)
    ensures Sorted([m[0]] + rest)
    ensures Keys([m[0]] + rest) == Keys(m) + {k}
    ensures forall x :: Get([m[0]] + rest, x) == if x == k then Some(v) else Get(m, x)
  {
    LessTotal(k, m[0].key);
    HeadBelow(m, rest);
    ConsSorted(m[0], rest);
    assert m == [m[0]] + m[1..];
    KeysCons(m[0], m[1..]);
    KeysCons(m[0], rest);
  }

  /** A sorted map stays sorted when an entry below all its keys is put in
      front. */
  lemma ConsSorted(e: Entry, t: seq<Entry>)
    requires Sorted(t)
    requires forall j :: 0 <= j < |t| ==> Less(e.key, t[j].key)
    ensures Sorted([e] + t)
  {
    var r := [e] + t;
    forall i, j | 0 <= i < j < |r| ensures Less(r[i].key, r[j].key) {
      assert r[j] == t[j - 1];
      if i > 0 { assert r[i] == t[i - 1]; }
    }
  }

  /** Every key of `t` that is a later key of `m`, or above its first key,
      lies above the first key of `m`. */
  lemma HeadBelow(m: seq<Entry>, t: seq<Entry>)
    requires Sorted(m) && m != []
    requires forall x :: x in Keys(t) ==> x in Keys(m[1..]) || Less(m[0].key, x)
    ensures forall j :: 0 <= j < |t| ==> Less(m[0].key, t[j].key)
  {
    forall j | 0 <= j < |t| ensures Less(m[0].key, t[j].key) {
      assert t[j].key in Keys(t);
      if t[j].key in Keys(m[1..]) {
        var i :| 0 <= i < |m[1..]| && m[1..][i].key == t[j].key;
        assert m[i + 1].key == t[j].key;
      }
    }
  }

  /** `erase(k)`. */
  function Remove(m: seq<Entry>, k: string): (r: seq<Entry>)
    requires Sorted(m)
    ensures Sorted(r)
    ensures Keys(r) == Keys(m) - {k}
    ensures forall x :: Get(r, x) == if x == k then None else Get(m, x)
  {
    if m == [] then []
    else if m[0].key == k then
      RemoveFront(m, k);
      m[1..]
    else
      RemoveLater(m, k, Remove(m[1..], k));
      [m[0]] + Remove(m[1..], k)
  }

  lemma RemoveFront(m: seq<Entry>, k: string)
    requires Sorted(m) && m != [] && m[0].key == k
    ensures Sorted(m[1..])
    ensures Keys(m[1..]) == Keys(m) - {k}
    ensures forall x :: Get(m[1..], x) == if x == k then None else Get(m, x)
  {
    assert m == [m[0]] + m[1..];
    KeysCons(m[0], m[1..]);
    assert k !in Keys(m[1..]) by {
      forall j | 0 <= j < |m[1..]| ensures m[1..][j].key != k {
        LessIrreflexive(k);
      }
    }
  }

  lemma RemoveLater(m: seq<Entry>, k: string, rest: seq<Entry>)
    requires Sorted(m) && m != [] && m[0].key != k
    requires Sorted(rest) && Keys(rest) == Keys(m[1..]) - {k}
    requires forall x :: Get(rest, x) == if x == k then None else Get(m[1..], x)
    ensures Sorted([m[0]] + rest)
    ensures Keys([m[0]] + rest) == Keys(m) - {k}
    ensures forall x :: Get([m[0]] + rest, x) == if x == k then None else Get(m, x)
  {
    HeadBelow(m, rest);
    ConsSorted(m[0], rest);
    assert m == [m[0]] + m[1..];
    KeysCons(m[0], m[1..]);
    KeysCons(m[0], rest);
  }

  /** The entries of `u` stored one after the other into `m`, as the loops
      `for (p : u) m[p.first] = p.second` do. */
  function PutAll(m: seq<Entry>, u: seq<Entry>): (r: seq<Entry>)
    requires Sorted(m)
    ensures Sorted(r)
    decreases |u|
  {
    if u == [] then m
    else
      var last := u[|u| - 1];
      Put(PutAll(m, u[..|u| - 1]), last.key, last.value)
  }

  /** A key greater than every stored key is appended at the end. */
  lemma {:induction false} PutGreatest(m: seq<Entry>, k: string, v: string)
    requires Sorted(m)
    requires forall j :: 0 <= j < |m| ==> Less(m[j].key, k)
    ensures Put(m, k, v) == m + [Entry(k, v)]
  {
    if m != [] {
      LessIrreflexive(k);
      LessAsymmetric(m[0].key, k);
      PutGreatest(m[1..], k, v);
      assert m == [m[0]] + m[1..];
    }
  }

  /** Storing the entries of a sorted map one by one into an empty map
      rebuilds that map exactly. */
  lemma {:induction false} PutAllIntoEmpty(u: seq<Entry>)
    requires Sorted(u)
    ensures PutAll([], u) == u
    decreases |u|
  {
    if u != [] {
      var init := u[..|u| - 1];
      var last := u[|u| - 1];
      PutAllIntoEmpty(init);
      PutGreatest(init, last.key, last.value);
      assert init + [last] == u;
    }
  }

  /** Looking a key up in a map extended at the end: an earlier key wins. */
  lemma {:induction false} GetSnoc(t: seq<Entry>, e: Entry, x: string)
    ensures Get(t + [e], x) == if x in Keys(t) then Get(t, x) else if x == e.key then Some(e.value) else None
    decreases |t|
  {
    if t == [] {
      assert [] + [e] == [e];
    } else {
      assert (t + [e])[1..] == t[1..] + [e];
      GetSnoc(t[1..], e, x);
      assert t == [t[0]] + t[1..];
      KeysCons(t[0], t[1..]);
    }
  }

  /** The last key of a sorted map occurs nowhere before it. */
  lemma LastKeyFresh(u: seq<Entry>)
    requires Sorted(u) && u != []
    ensures u[|u| - 1].key !in Keys(u[..|u| - 1])
  {
    if u[|u| - 1].key in Keys(u[..|u| - 1]) {
      var i :| 0 <= i < |u| - 1 && u[..|u| - 1][i].key == u[|u| - 1].key;
      LessIrreflexive(u[i].key);
    }
  }

  lemma GetPutAllStep(m: seq<Entry>, init: seq<Entry>, last: Entry, x: string, p: seq<Entry>)
    requires Sorted(p) && last.key !in Keys(init)
    requires Get(p, x) == if x in Keys(init) then Get(init, x) else Get(m, x)
    ensures Get(Put(p, last.key, last.value), x)
      == if x in Keys(init + [last]) then Get(init + [last], x) else Get(m, x)
  {
    GetSnoc(init, last, x);
    KeysSnoc(init, last);
  }

  /** After the updates, a key the update holds has the update's value and
      every other key keeps its earlier value. */
  lemma {:induction false} GetPutAll(m: seq<Entry>, u: seq<Entry>, x: string)
    requires Sorted(m) && Sorted(u)
    ensures Get(PutAll(m, u), x) == if x in Keys(u) then Get(u, x) else Get(m, x)
    decreases |u|
  {
    if u != [] {
      assert Sorted(u[..|u| - 1]);
      GetPutAll(m, u[..|u| - 1], x);
      LastKeyFresh(u);
      GetPutAllStep(m, u[..|u| - 1], u[|u| - 1], x, PutAll(m, u[..|u| - 1]));
      assert u[..|u| - 1] + [u[|u| - 1]] == u;
    }
  }

  /** `out << kv.first << ": " << kv.second`: how the client prints one
      entry of a map. */
  function EntryLine(e: Entry): string {
    e.key + ": " + e.value
  }

  /** The printed entries of `m` in iteration order, one line each. */
  function EntryLines(m: seq<Entry>): (ls: seq<string>)
    ensures |ls| == |m|
    ensures forall i :: 0 <= i < |m| ==> ls[i] == EntryLine(m[i])
    decreases |m|
  {
    if m == [] then [] else EntryLines(m[..|m| - 1]) + [EntryLine(m[|m| - 1])]
  }

  /** A printed map: one `key: value` line per entry, in key order. */
  function EntriesText(m: seq<Entry>): string {
    Unlines(EntryLines(m))
  }

  lemma EntriesTextStep(text: string, m: seq<Entry>, i: nat)
    requires i < |m|
    ensures text + EntriesText(m[..i + 1]) == text + EntriesText(m[..i]) + EntryLine(m[i]) + "\n"
  {
    assert m[..i + 1][..i] == m[..i];
    var ls, x := EntryLines(m[..i]), EntryLine(m[i]);
    assert EntryLines(m[..i + 1]) == ls + [x];
    UnlinesSnoc(ls, x);
    var a := Unlines(ls);
    assert text + (a + x + "\n") == text + a + x + "\n";
  }

  /** Appends a printed map, as each `for (const auto& kv : m)` printing
      loop does. */
  method AppendEntries(text: string, m: seq<Entry>) returns (r: string)
    ensures r == text + EntriesText(m)
  {
    r := text;
    for i := 0 to |m|
      invariant r == text + EntriesText(m[..i])
    {
      EntriesTextStep(text, m, i);
      r := r + EntryLine(m[i]) + "\n";
    }
    assert m[..|m|] == m;
  }
}
