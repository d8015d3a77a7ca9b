/**
 The browser's trade tape: batches that overlap, repeat and arrive in any order are merged into
 the newest few trades.
 */
module TradeTape {
  import opened Common

  const TAPE_LIMIT: nat := 30

  datatype Tick = Tick(id: string, sequence: int, price: int, quantity: int)

  function Members(s: seq<Tick>): set<Tick> {
    set t | t in s
  }

  /** A trade's id and its sequence each identify it: one exchange assigned both. */
  ghost predicate Identified(s: set<Tick>) {
    forall a, b | a in s && b in s && (a.id == b.id || a.sequence == b.sequence) :: a == b
  }

  ghost predicate Descending(s: seq<Tick>) {
    forall i, j | 0 <= i < j < |s| :: s[i].sequence > s[j].sequence
  }

  /** The newest `n` trades of a set, newest first. */
  ghost predicate IsTop(r: seq<Tick>, s: set<Tick>, n: nat) {
    && Descending(r)
    && |r| <= n
    && (forall t | t in r :: t in s)
    && (forall x | x in s && x !in r :: |r| == n && OlderThanAll(x, r))
  }

  ghost predicate OlderThanAll(x: Tick, r: seq<Tick>) {
    forall t | t in r :: x.sequence < t.sequence
  }

  // ---------------------------------------------------------------- the merge

  /** A keyed collection that keeps the position of a key's first insertion and its last value. */
  function Put(entries: seq<Tick>, t: Tick): seq<Tick> {
    if entries == [] then [t]
    else if entries[0].id == t.id then [t] + entries[1..]
    else [entries[0]] + Put(entries[1..], t)
  }

  function Keyed(s: seq<Tick>): seq<Tick> {
    if s == [] then [] else Put(Keyed(s[..|s| - 1]), s[|s| - 1])
  }

  /** Into a list that is newest first, behind every trade that is as new. */
  function Insert(t: Tick, s: seq<Tick>): seq<Tick> {
    if s == [] || s[|s| - 1].sequence >= t.sequence then s + [t]
    else Insert(t, s[..|s| - 1]) + [s[|s| - 1]]
  }

  /** A stable sort, newest first. */
  function NewestFirst(s: seq<Tick>): seq<Tick> {
    if s == [] then [] else Insert(s[|s| - 1], NewestFirst(s[..|s| - 1]))
  }

  function Prefix(s: seq<Tick>, n: nat): seq<Tick> {
    if |s| <= n then s else s[..n]
  }

  function Merged(current: seq<Tick>, incoming: seq<Tick>, limit: nat): seq<Tick> {
    Prefix(NewestFirst(Keyed(incoming + current)), limit)
  }

  /** The keyed collection as a list of keys and a map. */
  function Values(keys: seq<string>, byId: map<string, Tick>): seq<Tick>
    requires forall k | k in keys :: k in byId
  {
    if keys == [] then [] else [byId[keys[0]]] + Values(keys[1..], byId)
  }

  ghost predicate IsKeyed(keys: seq<string>, byId: map<string, Tick>) {
    && (forall k :: k in keys <==> k in byId)
    && DistinctKeys(keys)
    && (forall k | k in byId :: byId[k].id == k)
  }

  ghost predicate DistinctKeys(keys: seq<string>) {
    forall i, j | 0 <= i < j < |keys| :: keys[i] != keys[j]
  }

  lemma {:induction false} OtherValues(keys: seq<string>, byId: map<string, Tick>, t: Tick)
    requires (forall k | k in keys :: k in byId) && t.id !in keys
    ensures Values(keys, byId[t.id := t]) == Values(keys, byId)
  {
    if keys != [] {
      OtherValues(keys[1..], byId, t);
    }
  }

  lemma {:induction false} PutIsUpdate(keys: seq<string>, byId: map<string, Tick>, t: Tick)
    requires forall k | k in keys :: k in byId && byId[k].id == k
    requires DistinctKeys(keys)
    ensures Put(Values(keys, byId), t)
         == Values(if t.id in keys then keys else keys + [t.id], byId[t.id := t])
  {
    if keys == [] {
      assert [t.id][1..] == [];
    } else {
      var rest := keys[1..];
      assert keys == [keys[0]] + rest;
      if keys[0] == t.id {
        OtherValues(rest, byId, t);
      } else {
        PutIsUpdate(rest, byId, t);
        assert (keys + [t.id])[1..] == rest + [t.id];
      }
    }
  }

  method MergeTrades(current: seq<Tick>, incoming: seq<Tick>, limit: nat := TAPE_LIMIT) returns (tape: seq<Tick>)
    ensures tape == Merged(current, incoming, limit)
  {
    var keys: seq<string>, byId: map<string, Tick> := [], map[];
    var all := incoming + current;
    for i := 0 to |all|
      invariant IsKeyed(keys, byId) && Values(keys, byId) == Keyed(all[..i])
    {
      assert all[..i + 1][..i] == all[..i];
      PutIsUpdate(keys, byId, all[i]);
      if all[i].id !in byId {
        keys := keys + [all[i].id];
      }
      byId := byId[all[i].id := all[i]];
    }
    assert all[..|all|] == all;
    var sorted := NewestFirst(Values(keys, byId));
    tape := if |sorted| <= limit then sorted else sorted[..limit];
  }

  // ---------------------------------------------------------------- one merge is the newest of its input

  lemma {:induction false} PutMembers(entries: seq<Tick>, t: Tick, x: Tick)
    requires forall e | e in entries && e.id == t.id :: e == t
    ensures x in Put(entries, t) <==> x in entries || x == t
  {
    if entries != [] && entries[0].id != t.id {
      PutMembers(entries[1..], t, x);
    }
  }

  ghost predicate DistinctIds(s: seq<Tick>) {
    forall i, j | 0 <= i < j < |s| :: s[i].id != s[j].id
  }

  lemma {:induction false} PutKeepsDistinct(entries: seq<Tick>, t: Tick)
    requires DistinctIds(entries)
    ensures DistinctIds(Put(entries, t))
    ensures forall i | 0 <= i < |Put(entries, t)| ::
              Put(entries, t)[i].id == t.id || exists j | 0 <= j < |entries| :: entries[j].id == Put(entries, t)[i].id
  {
    if entries != [] && entries[0].id != t.id {
      var rest := entries[1..];
      assert forall i | 0 <= i < |rest| :: rest[i] == entries[i + 1];
      PutKeepsDistinct(rest, t);
      var put := Put(rest, t);
      forall i | 0 <= i < |put| ensures put[i].id != entries[0].id {
        if put[i].id != t.id {
          var j :| 0 <= j < |rest| && rest[j].id == put[i].id;
          assert entries[0].id != entries[j + 1].id;
        }
      }
    }
  }

  lemma {:induction false} KeyedMembers(s: seq<Tick>)
    requires Identified(Members(s))
    ensures DistinctIds(Keyed(s)) && forall x :: x in Keyed(s) <==> x in s
  {
    if s != [] {
      var init, t := s[..|s| - 1], s[|s| - 1];
      assert s == init + [t];
      assert Members(init) <= Members(s);
      KeyedMembers(init);
      PutKeepsDistinct(Keyed(init), t);
      forall e | e in Keyed(init) && e.id == t.id ensures e == t {
        assert e in Members(s) && t in Members(s);
      }
      forall x ensures x in Keyed(s) <==> x in s {
        PutMembers(Keyed(init), t, x);
      }
    }
  }

  ghost predicate WeaklyDescending(s: seq<Tick>) {
    forall i, j | 0 <= i < j < |s| :: s[i].sequence >= s[j].sequence
  }

  lemma {:induction false} InsertMembers(t: Tick, s: seq<Tick>)
    ensures multiset(Insert(t, s)) == multiset(s) + multiset{t}
  {
    if s == [] || s[|s| - 1].sequence >= t.sequence {
      assert Insert(t, s) == s + [t];
    } else {
      InsertMembers(t, s[..|s| - 1]);
      MembersLast(s);
    }
  }

  lemma MembersLast(s: seq<Tick>)
    requires s != []
    ensures multiset(s) == multiset(s[..|s| - 1]) + multiset{s[|s| - 1]}
  {
    assert s == s[..|s| - 1] + [s[|s| - 1]];
  }

  lemma {:induction false} InsertBounded(t: Tick, s: seq<Tick>, bound: int)
    requires t.sequence >= bound && forall i | 0 <= i < |s| :: s[i].sequence >= bound
    ensures forall i | 0 <= i < |Insert(t, s)| :: Insert(t, s)[i].sequence >= bound
  {
    if s != [] && s[|s| - 1].sequence < t.sequence {
      InsertBounded(t, s[..|s| - 1], bound);
    }
  }

  lemma {:induction false} InsertSorts(t: Tick, s: seq<Tick>)
    requires WeaklyDescending(s)
    ensures WeaklyDescending(Insert(t, s))
  {
    if s != [] && s[|s| - 1].sequence < t.sequence {
      var init, last := s[..|s| - 1], s[|s| - 1];
      InsertSorts(t, init);
      InsertBounded(t, init, last.sequence);
    }
  }

  lemma {:induction false} SortSorts(s: seq<Tick>)
    ensures WeaklyDescending(NewestFirst(s)) && multiset(NewestFirst(s)) == multiset(s)
  {
    if s != [] {
      SortSorts(s[..|s| - 1]);
      InsertSorts(s[|s| - 1], NewestFirst(s[..|s| - 1]));
      InsertMembers(s[|s| - 1], NewestFirst(s[..|s| - 1]));
      MembersLast(s);
    }
  }

  lemma {:induction false} PermutationKeepsDistinct(a: seq<Tick>, b: seq<Tick>, i: nat, j: nat)
    requires DistinctIds(a) && multiset(a) == multiset(b) && i < j < |b|
    ensures b[i] != b[j]
  {
    if b[i] == b[j] {
      var x := b[i];
      assert b == b[..j] + [b[j]] + b[j + 1..];
      assert b[..j][i] == x;
      assert multiset(b) == multiset(b[..j]) + multiset{x} + multiset(b[j + 1..]);
      assert multiset(b)[x] >= 2;
      OccursOnce(a, x);
    }
  }

  lemma {:induction false} OccursOnce(a: seq<Tick>, x: Tick)
    requires DistinctIds(a)
    ensures multiset(a)[x] <= 1
  {
    if a != [] {
      var init, last := a[..|a| - 1], a[|a| - 1];
      assert a == init + [last];
      assert forall i | 0 <= i < |init| :: init[i] == a[i];
      OccursOnce(init, x);
      if x == last {
        assert x !in init;
      }
    }
  }

  lemma {:induction false} SortedIsDescending(s: seq<Tick>)
    requires DistinctIds(s) && Identified(Members(s))
    ensures Descending(NewestFirst(s)) && forall x :: x in NewestFirst(s) <==> x in s
  {
    var sorted := NewestFirst(s);
    SortSorts(s);
    forall x ensures x in sorted <==> x in s {
      assert x in multiset(sorted) <==> x in multiset(s);
    }
    forall i, j | 0 <= i < j < |sorted| ensures sorted[i].sequence > sorted[j].sequence {
      PermutationKeepsDistinct(s, sorted, i, j);
      assert sorted[i] in Members(s) && sorted[j] in Members(s);
    }
  }

  lemma PrefixIsTop(sorted: seq<Tick>, n: nat)
    requires Descending(sorted)
    ensures IsTop(Prefix(sorted, n), Members(sorted), n)
  {
  }

  /** One merge yields the newest trades of the tape and the batch together. */
  lemma MergeIsTop(current: seq<Tick>, incoming: seq<Tick>, limit: nat)
    requires Identified(Members(current) + Members(incoming))
    ensures IsTop(Merged(current, incoming, limit), Members(current) + Members(incoming), limit)
  {
    var all := incoming + current;
    assert Members(all) == Members(current) + Members(incoming);
    KeyedMembers(all);
    var keyed := Keyed(all);
    assert Members(keyed) == Members(all);
    SortedIsDescending(keyed);
    assert Members(NewestFirst(keyed)) == Members(keyed);
    PrefixIsTop(NewestFirst(keyed), limit);
  }

  // ---------------------------------------------------------------- folding merges loses nothing

  lemma {:induction false} DescendingCount(r: seq<Tick>)
    requires Descending(r)
    ensures |Members(r)| == |r|
  {
    if r != [] {
      var init, last := r[..|r| - 1], r[|r| - 1];
      assert Descending(init);
      DescendingCount(init);
      assert last !in init;
      assert Members(r) == Members(init) + {last};
    }
  }

  /** A full tape that holds a tape of the same size holds nothing else. */
  lemma FullTapeHoldsNoMore(c: seq<Tick>, r: seq<Tick>, n: nat, t: Tick)
    requires Descending(c) && Descending(r) && |c| == n && |r| <= n
    requires (forall y | y in c :: y in r) && t in r
    ensures |r| == n && t in c
  {
    DescendingCount(c);
    DescendingCount(r);
    SubsetSize(Members(c), Members(r));
    assert t in Members(r);
  }

  /** Merging into the newest of what came before yields the newest of everything: what the tape
      has dropped cannot matter any more. */
  lemma TopOfTop(c: seq<Tick>, r: seq<Tick>, seen: set<Tick>, batch: set<Tick>, n: nat)
    requires IsTop(c, seen, n) && IsTop(r, Members(c) + batch, n)
    ensures IsTop(r, seen + batch, n)
  {
    forall x | x in seen + batch && x !in r ensures |r| == n && OlderThanAll(x, r) {
      if x !in Members(c) + batch {
        assert x in seen && x !in c;
        if y :| y in c && y !in r {
          assert y in Members(c) + batch;
          assert OlderThanAll(y, r) && x.sequence < y.sequence;
        } else {
          DescendingCount(c);
          DescendingCount(r);
          SubsetSize(Members(c), Members(r));
          forall t | t in r ensures x.sequence < t.sequence {
            FullTapeHoldsNoMore(c, r, n, t);
          }
        }
      }
    }
  }

  function Folded(batches: seq<seq<Tick>>, limit: nat): seq<Tick> {
    if batches == [] then []
    else Merged(Folded(batches[..|batches| - 1], limit), batches[|batches| - 1], limit)
  }

  function Seen(batches: seq<seq<Tick>>): set<Tick> {
    if batches == [] then {} else Seen(batches[..|batches| - 1]) + Members(batches[|batches| - 1])
  }

  /** Over any history of batches the tape is the newest trades of all ever seen. */
  lemma {:induction false} TapeIsTop(batches: seq<seq<Tick>>, limit: nat)
    requires Identified(Seen(batches))
    ensures IsTop(Folded(batches, limit), Seen(batches), limit)
  {
    if batches != [] {
      var init, batch := batches[..|batches| - 1], batches[|batches| - 1];
      TapeIsTop(init, limit);
      var c := Folded(init, limit);
      assert Members(c) + Members(batch) <= Seen(batches);
      MergeIsTop(c, batch, limit);
      TopOfTop(c, Folded(batches, limit), Seen(init), Members(batch), limit);
    }
  }

  // ---------------------------------------------------------------- batching does not matter

  lemma TopHasMember(a: seq<Tick>, b: seq<Tick>, s: set<Tick>, n: nat, x: Tick)
    requires IsTop(a, s, n) && IsTop(b, s, n) && x in a
    ensures x in b
  {
    if x !in b {
      forall y | y in b ensures y in a {
        assert y !in a ==> OlderThanAll(y, a);
      }
      FullTapeHoldsNoMore(b, a, n, x);
    }
  }

  lemma {:induction false} DescendingIsUnique(a: seq<Tick>, b: seq<Tick>)
    requires Descending(a) && Descending(b) && Members(a) == Members(b)
    ensures a == b
    decreases |a|
  {
    DescendingCount(a);
    DescendingCount(b);
    if a != [] {
      var x, y := a[|a| - 1], b[|b| - 1];
      assert x in Members(a) && y in Members(b);
      assert x == y by {
        var i :| 0 <= i < |a| && a[i] == y;
        var j :| 0 <= j < |b| && b[j] == x;
        assert i < |a| - 1 || i == |a| - 1;
        assert j < |b| - 1 || j == |b| - 1;
      }
      var p, q := a[..|a| - 1], b[..|b| - 1];
      assert Members(p) == Members(a) - {x};
      assert Members(q) == Members(b) - {x};
      DescendingIsUnique(p, q);
      assert a == p + [x] && b == q + [x];
    }
  }

  lemma TopIsUnique(a: seq<Tick>, b: seq<Tick>, s: set<Tick>, n: nat)
    requires IsTop(a, s, n) && IsTop(b, s, n)
    ensures a == b
  {
    forall x ensures x in Members(a) <==> x in Members(b) {
      if x in a {
        TopHasMember(a, b, s, n, x);
      }
      if x in b {
        TopHasMember(b, a, s, n, x);
      }
    }
    DescendingIsUnique(a, b);
  }

  /** How the trades were cut into batches, in which order the batches came and how often each
      trade was repeated makes no difference. */
  lemma {:induction false} BatchingDoesNotMatter(batches: seq<seq<Tick>>, others: seq<seq<Tick>>, limit: nat)
    requires Identified(Seen(batches)) && Seen(batches) == Seen(others)
    ensures Folded(batches, limit) == Folded(others, limit)
  {
    TapeIsTop(batches, limit);
    TapeIsTop(others, limit);
    TopIsUnique(Folded(batches, limit), Folded(others, limit), Seen(batches), limit);
  }
}
