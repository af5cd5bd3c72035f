/** The session journal: a bounded, compacted list of successful session-only transitions. */
module Journal {
  import opened Wire

  const MAX_ENTRIES := 32
  const MAX_BYTES := 1024 * 1024

  datatype Entry = Entry(key: Name, frame: Frame)

  /** The entries without those under one key. */
  function Drop(entries: seq<Entry>, key: Name): seq<Entry> {
    if entries == [] then []
    else (if entries[0].key == key then [] else [entries[0]]) + Drop(entries[1..], key)
  }

  /** Compaction as the journal performs it: each transition replaces the earlier one under its key. */
  function Compact(history: seq<Entry>): seq<Entry> {
    if history == [] then []
    else Drop(Compact(history[..|history| - 1]), history[|history| - 1].key) + [history[|history| - 1]]
  }

  predicate KeyIn(entries: seq<Entry>, key: Name) {
    exists e :: e in entries && e.key == key
  }

  /** The reference: every transition that no later one overrides, in the order they happened. */
  function LastOccurrences(history: seq<Entry>): seq<Entry> {
    if history == [] then []
    else (if KeyIn(history[1..], history[0].key) then [] else [history[0]]) + LastOccurrences(history[1..])
  }

  /** The keyed session state that a sequence of transitions leaves behind. */
  function KeyedState(entries: seq<Entry>): map<Name, Frame> {
    if entries == [] then map[]
    else KeyedState(entries[..|entries| - 1])[entries[|entries| - 1].key := entries[|entries| - 1].frame]
  }

  function Total(entries: seq<Entry>): nat {
    if entries == [] then 0 else |entries[0].frame.payload| + Total(entries[1..])
  }

  predicate DistinctKeys(entries: seq<Entry>) {
    entries == [] || (!KeyIn(entries[1..], entries[0].key) && DistinctKeys(entries[1..]))
  }

  // ---------------------------------------------------------------- dropping a key

  lemma {:induction false} DropHead(h: Entry, t: seq<Entry>, key: Name)
    ensures Drop([h] + t, key) == (if h.key == key then [] else [h]) + Drop(t, key)
  {
    assert ([h] + t)[1..] == t;
  }

  lemma {:induction false} DropAppends(a: seq<Entry>, b: seq<Entry>, key: Name)
    ensures Drop(a + b, key) == Drop(a, key) + Drop(b, key)
  {
    if a == [] {
      assert a + b == b;
    } else {
      assert a == [a[0]] + a[1..] && a + b == [a[0]] + (a[1..] + b);
      DropAppends(a[1..], b, key);
      DropHead(a[0], a[1..], key);
      DropHead(a[0], a[1..] + b, key);
    }
  }

  lemma {:induction false} DropKeeps(a: seq<Entry>, key: Name)
    ensures forall e :: e in Drop(a, key) <==> e in a && e.key != key
    ensures DistinctKeys(a) ==> DistinctKeys(Drop(a, key))
    ensures |Drop(a, key)| <= |a| && Total(Drop(a, key)) <= Total(a)
  {
    if a != [] {
      DropKeeps(a[1..], key);
      assert forall e :: e in a <==> e == a[0] || e in a[1..];
      var rest := Drop(a[1..], key);
      assert [] + rest == rest && ([a[0]] + rest)[1..] == rest;
    }
  }

  lemma {:induction false} DropMissing(a: seq<Entry>, key: Name)
    requires !KeyIn(a, key)
    ensures Drop(a, key) == a
  {
    if a != [] {
      assert a[0] in a && forall e :: e in a[1..] ==> e in a;
      DropMissing(a[1..], key);
    }
  }

  lemma {:induction false} TotalAppends(a: seq<Entry>, b: seq<Entry>)
    ensures Total(a + b) == Total(a) + Total(b)
  {
    if a == [] {
      assert a + b == b;
    } else {
      TotalAppends(a[1..], b);
      assert (a + b)[1..] == a[1..] + b;
    }
  }

  /** With distinct keys, dropping a key is removing the one entry under it. */
  lemma {:induction false} DropOne(a: seq<Entry>, i: nat)
    requires DistinctKeys(a) && i < |a|
    ensures Drop(a, a[i].key) == a[..i] + a[i + 1..]
    ensures Total(a) == Total(Drop(a, a[i].key)) + |a[i].frame.payload|
  {
    DropIndex(a, i);
    hide Drop, DistinctKeys;
    assert a == a[..i] + ([a[i]] + a[i + 1..]) && [a[i]][1..] == [];
    TotalAppends(a[..i], [a[i]] + a[i + 1..]);
    TotalAppends([a[i]], a[i + 1..]);
    TotalAppends(a[..i], a[i + 1..]);
  }

  lemma {:induction false} DropIndex(a: seq<Entry>, i: nat)
    requires DistinctKeys(a) && i < |a|
    ensures Drop(a, a[i].key) == a[..i] + a[i + 1..]
  {
    if i == 0 {
      DropMissing(a[1..], a[0].key);
    } else {
      var t := a[1..];
      DropIndex(t, i - 1);
      assert t[i - 1] == a[i] && a[i] in t;
      DropHead(a[0], t, a[i].key);
      assert a == [a[0]] + t;
      assert a[..i] + a[i + 1..] == [a[0]] + (t[..i - 1] + t[i..]);
    }
  }

  lemma {:induction false} DistinctAppend(a: seq<Entry>, e: Entry)
    requires DistinctKeys(a) && !KeyIn(a, e.key)
    ensures DistinctKeys(a + [e])
  {
    if a == [] {
      assert a + [e] == [e];
      assert [e][1..] == [];
    } else {
      assert a[0] in a && forall x :: x in a[1..] ==> x in a;
      DistinctAppend(a[1..], e);
      assert (a + [e])[1..] == a[1..] + [e];
    }
  }

  // ---------------------------------------------------------------- what compaction means

  lemma {:induction false} KeyInAppend(a: seq<Entry>, e: Entry, key: Name)
    ensures KeyIn(a + [e], key) <==> KeyIn(a, key) || e.key == key
  {
    assert forall x :: x in a + [e] <==> x in a || x == e;
  }

  lemma {:induction false} LastOccurrencesAppend(a: seq<Entry>, e: Entry)
    ensures LastOccurrences(a + [e]) == Drop(LastOccurrences(a), e.key) + [e]
  {
    if a == [] {
      assert a + [e] == [e];
      assert [e][1..] == [];
    } else {
      var h, t := a[0], a[1..];
      var rest := LastOccurrences(t);
      LastOccurrencesAppend(t, e);
      KeyInAppend(t, e, h.key);
      assert (a + [e])[1..] == t + [e];
      if KeyIn(t, h.key) {
        assert LastOccurrences(a) == rest && LastOccurrences(a + [e]) == LastOccurrences(t + [e]);
      } else {
        assert LastOccurrences(a) == [h] + rest;
        DropHead(h, rest, e.key);
        assert LastOccurrences(a + [e]) == (if h.key == e.key then [] else [h]) + LastOccurrences(t + [e]);
      }
    }
  }

  /** The journal holds exactly the last occurrence of each key, in history order, keys distinct. */
  lemma {:induction false} CompactionIsExact(history: seq<Entry>)
    ensures Compact(history) == LastOccurrences(history)
    ensures DistinctKeys(Compact(history))
    decreases |history|
  {
    if history != [] {
      var init, last := history[..|history| - 1], history[|history| - 1];
      assert history == init + [last];
      CompactionIsExact(init);
      LastOccurrencesAppend(init, last);
      DropKeeps(Compact(init), last.key);
      DistinctAppend(Drop(Compact(init), last.key), last);
    }
  }

  /** Replacing the entry under a key keeps keys distinct and the byte count additive. */
  lemma {:induction false} ReplacementIsSound(entries: seq<Entry>, e: Entry)
    requires DistinctKeys(entries)
    ensures DistinctKeys(Drop(entries, e.key)) && DistinctKeys(Drop(entries, e.key) + [e])
    ensures |Drop(entries, e.key)| <= |entries| && Total(Drop(entries, e.key)) <= Total(entries)
    ensures Total(Drop(entries, e.key) + [e]) == Total(Drop(entries, e.key)) + |e.frame.payload|
  {
    DropKeeps(entries, e.key);
    TotalAppends(Drop(entries, e.key), [e]);
    DistinctAppend(Drop(entries, e.key), e);
  }

  lemma {:induction false} CompactExtends(history: seq<Entry>, e: Entry)
    ensures Compact(history + [e]) == Drop(Compact(history), e.key) + [e]
  {
    assert (history + [e])[..|history|] == history;
  }

  lemma {:induction false} KeyedStateAfterDrop(entries: seq<Entry>, key: Name, frame: Frame)
    ensures KeyedState(Drop(entries, key))[key := frame] == KeyedState(entries)[key := frame]
    decreases |entries|
  {
    if entries != [] {
      var init, last := entries[..|entries| - 1], entries[|entries| - 1];
      assert entries == init + [last];
      KeyedStateAfterDrop(init, key, frame);
      DropAppends(init, [last], key);
      if last.key == key {
        assert Drop([last], key) == [];
        assert Drop(entries, key) == Drop(init, key);
      } else {
        var before, after := Drop(init, key), Drop(entries, key);
        assert Drop([last], key) == [last];
        assert after == before + [last] && after[..|after| - 1] == before && after[|after| - 1] == last;
        assert KeyedState(after) == KeyedState(before)[last.key := last.frame];
        assert KeyedState(after)[key := frame] == KeyedState(before)[key := frame][last.key := last.frame];
      }
    }
  }

  /** Replaying the compacted journal leaves the same keyed state as the full history. */
  lemma {:induction false} CompactionPreservesState(history: seq<Entry>)
    ensures KeyedState(Compact(history)) == KeyedState(history)
    decreases |history|
  {
    if history != [] {
      var init, last := history[..|history| - 1], history[|history| - 1];
      CompactionPreservesState(init);
      KeyedStateAfterDrop(Compact(init), last.key, last.frame);
      var dropped := Drop(Compact(init), last.key);
      assert (dropped + [last])[..|dropped|] == dropped;
    }
  }

  /** There is room for a transition once the earlier one under its key is gone. */
  predicate FitsIn(entries: seq<Entry>, key: Name, frame: Frame) {
    |Drop(entries, key)| < MAX_ENTRIES && Total(Drop(entries, key)) + |frame.payload| <= MAX_BYTES
  }

  // ---------------------------------------------------------------- the journal object

  function SaturatingSub(a: nat, b: nat): nat {
    if a >= b then a - b else 0
  }

  class SessionJournal {
    var entries: seq<Entry>
    var bytes: nat
    var pinned: bool
    var checkpointed: bool

    ghost predicate Valid()
      reads this
    {
      && DistinctKeys(entries)
      && bytes == Total(entries)
      && |entries| <= MAX_ENTRIES && bytes <= MAX_BYTES
    }

    constructor ()
      ensures Valid() && entries == [] && !pinned && !checkpointed
    {
      entries, bytes, pinned, checkpointed := [], 0, false, false;
    }

    method Position(key: Name) returns (index: Option<nat>)
      ensures index.None? ==> !KeyIn(entries, key)
      ensures index.Some? ==> index.value < |entries| && entries[index.value].key == key
    {
      for i := 0 to |entries|
        invariant forall j :: 0 <= j < i ==> entries[j].key != key
      {
        if entries[i].key == key {
          return Some(i);
        }
      }
      index := None;
    }

    /** Takes the entry under a key out, if there is one. */
    method Remove(key: Name)
      requires DistinctKeys(entries) && bytes == Total(entries)
      modifies this`entries, this`bytes
      ensures entries == Drop(old(entries), key) && bytes == Total(entries)
    {
      var index := Position(key);
      if index.Some? {
        DropOne(entries, index.value);
        var removed := entries[index.value];
        entries := entries[..index.value] + entries[index.value + 1..];
        bytes := SaturatingSub(bytes, |removed.frame.payload|);
      } else {
        DropMissing(entries, key);
      }
    }

    /** Records a transition, or refuses it for want of room. The earlier entry under the key is
        removed before room is checked, so a refusal still costs that entry. */
    method Record(key: Name, frame: Frame) returns (ok: bool)
      requires Valid()
      modifies this`entries, this`bytes
      ensures Valid()
      ensures ok <==> FitsIn(old(entries), key, frame)
      ensures ok <==> |Drop(old(entries), key)| < 32 && Total(Drop(old(entries), key)) + |frame.payload| <= 0x10_0000
      ensures entries == Drop(old(entries), key) + (if ok then [Entry(key, frame)] else [])
    {
      var e := Entry(key, frame);
      ghost var dropped := Drop(entries, key);
      ReplacementIsSound(entries, e);
      Remove(key);
      assert entries == dropped && bytes == Total(dropped);
      var nextBytes := bytes + |frame.payload|;
      ok := |entries| < MAX_ENTRIES && nextBytes <= MAX_BYTES;
      if ok {
        bytes := nextBytes;
        entries := entries + [e];
      }
    }
  }
}
