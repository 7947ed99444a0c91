// The deduplication design: several replicas write the same events, and a compacted topic keeps the last record of
// each key (doc/tetragon_grpc_kafka_consumer_professional.md, section 10.0.3).
module Compaction {
  import opened Seqs

  /** A record as the log cleaner sees it: `id` is the topic and key. */
  datatype Entry = Entry(id: (string, string), value: string)

  /** What a reader of the compacted log ends up with: the last value of each id. */
  function Compact(log: seq<Entry>): map<(string, string), string> {
    if log == [] then map[] else Compact(log[..|log| - 1])[log[|log| - 1].id := log[|log| - 1].value]
  }

  lemma {:induction false} CompactKeys(log: seq<Entry>)
    ensures Compact(log).Keys == set x | x in log :: x.id
    ensures forall k | k in Compact(log) :: Entry(k, Compact(log)[k]) in log
  {
    if log != [] {
      var front, x := log[..|log| - 1], log[|log| - 1];
      CompactKeys(front);
      assert log == front + [x];
    }
  }

  lemma {:induction false} CompactAppend(a: seq<Entry>, b: seq<Entry>)
    ensures Compact(a + b) == Compact(a) + Compact(b)
    decreases |b|
  {
    if b == [] {
      assert a + b == a;
    } else {
      CompactAppend(a, b[..|b| - 1]);
      assert (a + b)[..|a + b| - 1] == a + b[..|b| - 1];
    }
  }

  // ---------------------------------------------------------------------------------------------------------
  // The log cleaner

  /** One cleaning step removes record i, superseded by a later record j of the same id. */
  predicate Superseded(log: seq<Entry>, i: nat, j: nat) {
    i < j < |log| && log[i].id == log[j].id
  }

  function Clean(log: seq<Entry>, i: nat): seq<Entry>
    requires i < |log|
  {
    log[..i] + log[i + 1..]
  }

  ghost predicate FullyCleaned(log: seq<Entry>) {
    forall i: nat, j: nat :: !Superseded(log, i, j)
  }

  /** Cleaning in any order, completely or not, never changes what a reader ends up with. */
  lemma CleanPreserves(log: seq<Entry>, i: nat, j: nat)
    requires Superseded(log, i, j)
    ensures Compact(Clean(log, i)) == Compact(log)
  {
    var a, x, b := log[..i], log[i], log[i + 1..];
    assert log == a + ([x] + b);
    CompactAppend(a, b);
    CompactAppend(a, [x] + b);
    CompactAppend([x], b);
    assert x.id in Compact(b) by {
      CompactKeys(b);
      assert b[j - i - 1] == log[j];
    }
    CompactOne(x);
    MapShadow(Compact(a), x.id, x.value, Compact(b));
  }

  lemma CompactOne(x: Entry)
    ensures Compact([x]) == map[x.id := x.value]
  {
    assert [x][..0] == [];
  }

  lemma MapShadow<K, V>(m: map<K, V>, k: K, v: V, n: map<K, V>)
    requires k in n
    ensures m + (map[k := v] + n) == m + n
  {
    assert map[k := v] + n == n;
  }

  /** Once nothing is left to clean, the log holds exactly one record per id. */
  lemma {:induction false} CleanedLogIsTheMap(log: seq<Entry>)
    requires FullyCleaned(log)
    ensures |log| == |Compact(log)|
    ensures forall x | x in log :: x.id in Compact(log) && Compact(log)[x.id] == x.value
  {
    if log != [] {
      var n := |log| - 1;
      var front, x := log[..n], log[n];
      forall i: nat, j: nat ensures !Superseded(front, i, j) {
        assert !Superseded(log, i, j);
      }
      CleanedLogIsTheMap(front);
      CompactKeys(front);
      assert log == front + [x];
      assert x.id !in Compact(front) by {
        if x.id in Compact(front) {
          var y :| y in front && y.id == x.id;
          var i: nat :| i < n && front[i] == y;
          assert Superseded(log, i, n);
        }
      }
      assert Compact(log).Keys == Compact(front).Keys + {x.id};
    }
  }

  // ---------------------------------------------------------------------------------------------------------
  // Replicas: each delivery is turned into an entry that depends on the delivery alone

  /** Equal ids carry equal values. */
  ghost predicate Consistent<D(!new)>(entry: D -> Entry, s: set<D>) {
    forall d1, d2 | d1 in s && d2 in s :: entry(d1).id == entry(d2).id ==> entry(d1) == entry(d2)
  }

  function Elements<D>(log: seq<D>): set<D> { set d | d in log }

  lemma ElementsSnoc<D>(log: seq<D>, d: D)
    ensures Elements(log + [d]) == Elements(log) + {d}
  {
    forall x ensures x in Elements(log + [d]) <==> x in Elements(log) + {d} {
      assert (log + [d])[|log|] == d;
    }
  }

  lemma {:induction false} MapElements<D>(entry: D -> Entry, log: seq<D>)
    ensures forall x :: x in Map(entry, log) <==> exists d :: d in log && entry(d) == x
  {
    if log != [] {
      MapElements(entry, log[..|log| - 1]);
      assert log == log[..|log| - 1] + [log[|log| - 1]];
      assert log[|log| - 1] in log;
    }
  }

  /** Order, repetition and interleaving do not matter when ids determine values. */
  lemma ConsistentConverges<D(!new)>(entry: D -> Entry, a: seq<D>, b: seq<D>)
    requires Elements(a) == Elements(b) && Consistent(entry, Elements(a))
    ensures Compact(Map(entry, a)) == Compact(Map(entry, b))
  {
    hide Map, Compact;
    var (ma, mb) := (Map(entry, a), Map(entry, b));
    MapElements(entry, a);
    MapElements(entry, b);
    CompactKeys(ma);
    CompactKeys(mb);
    forall x ensures x in ma <==> x in mb {
      if exists d :: d in a && entry(d) == x {
        var d :| d in a && entry(d) == x;
        assert d in Elements(a);
      }
      if exists d :: d in b && entry(d) == x {
        var d :| d in b && entry(d) == x;
        assert d in Elements(b);
      }
    }
    forall k | k in Compact(ma) ensures k in Compact(mb) && Compact(ma)[k] == Compact(mb)[k] {
      SameValue(entry, a, ma, k, Compact(ma)[k], Compact(mb)[k]);
    }
  }

  lemma SameValue<D(!new)>(entry: D -> Entry, a: seq<D>, ma: seq<Entry>, k: (string, string), u: string, v: string)
    requires Consistent(entry, Elements(a)) && ma == Map(entry, a)
    requires Entry(k, u) in ma && Entry(k, v) in ma
    ensures u == v
  {
    MapElements(entry, a);
    var d1 :| d1 in a && entry(d1) == Entry(k, u);
    var d2 :| d2 in a && entry(d2) == Entry(k, v);
    assert d1 in Elements(a) && d2 in Elements(a);
  }

  lemma {:induction false} Listing<D>(s: set<D>) returns (log: seq<D>)
    ensures Elements(log) == s
  {
    if s == {} {
      log := [];
    } else {
      var d :| d in s;
      var rest := Listing(s - {d});
      log := rest + [d];
      ElementsSnoc(rest, d);
    }
  }

  /** The design works for a set of deliveries exactly when ids determine values on it. */
  lemma ConvergesIffConsistent<D(!new)>(entry: D -> Entry, s: set<D>)
    ensures Consistent(entry, s) <==>
            forall a: seq<D>, b: seq<D> | Elements(a) == s && Elements(b) == s ::
              Compact(Map(entry, a)) == Compact(Map(entry, b))
  {
    if Consistent(entry, s) {
      forall a: seq<D>, b: seq<D> | Elements(a) == s && Elements(b) == s
        ensures Compact(Map(entry, a)) == Compact(Map(entry, b))
      {
        ConsistentConverges(entry, a, b);
      }
    } else {
      var d1, d2 :| d1 in s && d2 in s && entry(d1).id == entry(d2).id && entry(d1) != entry(d2);
      var log := Listing(s);
      var (a, b) := (log + [d1], log + [d2]);
      assert Elements(a) == s && Elements(b) == s;
      assert a[..|log|] == log && b[..|log|] == log;
      assert Compact(Map(entry, a))[entry(d1).id] == entry(d1).value;
      assert Compact(Map(entry, b))[entry(d1).id] == entry(d2).value;
    }
  }

  ghost predicate Injective<D(!new)>(entry: D -> Entry, s: set<D>) {
    forall d1, d2 | d1 in s && d2 in s :: entry(d1).id == entry(d2).id ==> d1 == d2
  }

  /** With injective ids the reader has exactly one record per delivered event, whatever the duplication. */
  lemma {:induction false} OneRecordPerDelivery<D(!new)>(entry: D -> Entry, log: seq<D>)
    requires Injective(entry, Elements(log))
    ensures |Compact(Map(entry, log))| == |Elements(log)|
    ensures forall d | d in log :: entry(d).id in Compact(Map(entry, log))
                                && Compact(Map(entry, log))[entry(d).id] == entry(d).value
  {
    if log == [] {
      assert Elements(log) == {};
    } else {
      var n := |log| - 1;
      var front, d := log[..n], log[n];
      assert log == front + [d];
      ElementsSnoc(front, d);
      OneRecordPerDelivery(entry, front);
      var m := Compact(Map(entry, front));
      IdTakenIffDelivered(entry, front, d);
      assert m[entry(d).id := entry(d).value].Keys == m.Keys + {entry(d).id};
      forall c | c in log && c != d ensures entry(c).id != entry(d).id {
        assert c in Elements(log) && d in Elements(log);
      }
    }
  }

  lemma IdTakenIffDelivered<D(!new)>(entry: D -> Entry, front: seq<D>, d: D)
    requires Injective(entry, Elements(front) + {d})
    ensures d in Elements(front) <==> entry(d).id in Compact(Map(entry, front))
  {
    MapElements(entry, front);
    CompactKeys(Map(entry, front));
    if entry(d).id in Compact(Map(entry, front)) {
      var x :| x in Map(entry, front) && x.id == entry(d).id;
      var c :| c in front && entry(c) == x;
      assert c in Elements(front);
    }
  }

  // ---------------------------------------------------------------------------------------------------------
  // Interleavings

  /** `merged` is what the topic holds when the replicas' logs are written concurrently. */
  ghost predicate Interleaving<D(!new)>(logs: seq<seq<D>>, merged: seq<D>)
    decreases |merged|
  {
    if merged == [] then forall r | 0 <= r < |logs| :: logs[r] == []
    else exists r :: 0 <= r < |logs| && LastFrom(logs, merged, r)
                  && Interleaving(logs[r := logs[r][..|logs[r]| - 1]], merged[..|merged| - 1])
  }

  ghost predicate LastFrom<D(!new)>(logs: seq<seq<D>>, merged: seq<D>, r: int)
    requires 0 <= r < |logs| && merged != []
  {
    logs[r] != [] && logs[r][|logs[r]| - 1] == merged[|merged| - 1]
  }

  function Delivered<D>(logs: seq<seq<D>>): set<D> {
    set r, d | 0 <= r < |logs| && d in logs[r] :: d
  }

  lemma {:induction false} InterleavingElements<D(!new)>(logs: seq<seq<D>>, merged: seq<D>)
    requires Interleaving(logs, merged)
    ensures Elements(merged) == Delivered(logs)
    decreases |merged|
  {
    if merged != [] {
      var n := |merged| - 1;
      var r :| 0 <= r < |logs| && LastFrom(logs, merged, r)
            && Interleaving(logs[r := logs[r][..|logs[r]| - 1]], merged[..n]);
      var before := logs[r := logs[r][..|logs[r]| - 1]];
      InterleavingElements(before, merged[..n]);
      var d := merged[n];
      assert merged == merged[..n] + [d] && logs[r] == before[r] + [d];
      assert Elements(merged) == Elements(merged[..n]) + {d};
      forall x ensures x in Delivered(logs) <==> x in Delivered(before) || x == d {
        if x in Delivered(logs) {
          var q :| 0 <= q < |logs| && x in logs[q];
          assert q != r ==> x in before[q];
        }
        if x in Delivered(before) {
          var q :| 0 <= q < |logs| && x in before[q];
          assert x in logs[q];
        }
        assert d in logs[r];
      }
    }
  }

  /** Any two deployments, with any numbers of replicas and any interleavings, that deliver the same events at least
      once leave the same compacted topic. */
  lemma ReplicasConverge<D(!new)>(entry: D -> Entry, logs1: seq<seq<D>>, merged1: seq<D>,
                                  logs2: seq<seq<D>>, merged2: seq<D>)
    requires Interleaving(logs1, merged1) && Interleaving(logs2, merged2)
    requires Delivered(logs1) == Delivered(logs2) && Consistent(entry, Delivered(logs1))
    ensures Compact(Map(entry, merged1)) == Compact(Map(entry, merged2))
  {
    InterleavingElements(logs1, merged1);
    InterleavingElements(logs2, merged2);
    ConsistentConverges(entry, merged1, merged2);
  }
}
