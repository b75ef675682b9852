/**
 * Preparing one traveller's taps for the pairwise scan: grouping by
 * (companyId, busId, pan), sorting each group by timestamp, and padding it with
 * a GROUP_HEAD and a GROUP_TAIL sentinel.
 */
module TapGrouping {
  import opened Wrappers
  import opened TapModels
  import opened Lists

  /** The traveller key; equality is structural on the three fields. */
  datatype GroupKey = GroupKey(companyId: string, busId: string, pan: string)

  function KeyOf(tap: Tap): GroupKey {
    GroupKey(tap.companyId, tap.busId, tap.pan)
  }

  /** Two taps fall in one group exactly when their three key fields are equal. */
  lemma SameGroupIffSameFields(a: Tap, b: Tap)
    ensures KeyOf(a) == KeyOf(b) <==> a.companyId == b.companyId && a.busId == b.busId && a.pan == b.pan
  {
  }

  /**
   * The taps of one traveller, in input order (the grouping collector keeps
   * encounter order within a group).
   */
  function GroupOf(taps: seq<Tap>, key: GroupKey): (group: seq<Tap>)
    ensures forall t :: t in group <==> t in taps && KeyOf(t) == key
    ensures |group| <= |taps|
  {
    if taps == [] then []
    else
      var last := taps[|taps| - 1];
      GroupOf(taps[..|taps| - 1], key) + (if KeyOf(last) == key then [last] else [])
  }

  /** Grouping keeps every occurrence of a traveller's tap and nothing of anyone else's. */
  lemma {:induction false} GroupOfCounts(taps: seq<Tap>, key: GroupKey)
    ensures forall u :: multiset(GroupOf(taps, key))[u] == if KeyOf(u) == key then multiset(taps)[u] else 0
    decreases |taps|
  {
    if taps != [] {
      var n := |taps| - 1;
      assert taps == taps[..n] + [taps[n]];
      GroupOfCounts(taps[..n], key);
    }
  }

  /** Grouping a concatenation groups each part. */
  lemma {:induction false} GroupOfAppend(a: seq<Tap>, b: seq<Tap>, key: GroupKey)
    ensures GroupOf(a + b, key) == GroupOf(a, key) + GroupOf(b, key)
    decreases |b|
  {
    if b == [] {
      assert a + b == a;
    } else {
      var n := |b| - 1;
      assert (a + b)[..|a + b| - 1] == a + b[..n];
      GroupOfAppend(a, b[..n], key);
    }
  }

  predicate AllTimed(s: seq<Tap>) {
    forall t | t in s :: t.dateTimeUtc.Some?
  }

  function TimeOf(t: Tap): int
    requires t.dateTimeUtc.Some?
  {
    t.dateTimeUtc.value
  }

  predicate SortedByTime(s: seq<Tap>)
    requires AllTimed(s)
  {
    forall i, j | 0 <= i < j < |s| :: TimeOf(s[i]) <= TimeOf(s[j])
  }

  /** Inserts `tap` before the first element that is not earlier than it. */
  function InsertByTime(tap: Tap, sorted: seq<Tap>): (r: seq<Tap>)
    requires tap.dateTimeUtc.Some? && AllTimed(sorted)
    ensures AllTimed(r)
    ensures multiset(r) == multiset(sorted) + multiset{tap}
    ensures |r| == |sorted| + 1
    ensures r[0] == tap || (sorted != [] && r[0] == sorted[0])
  {
    if sorted == [] || TimeOf(tap) <= TimeOf(sorted[0]) then [tap] + sorted
    else
      var rest := InsertByTime(tap, sorted[1..]);
      assert sorted == [sorted[0]] + sorted[1..];
      [sorted[0]] + rest
  }

  /** Putting a tap in front of a sorted list that starts no earlier keeps it sorted. */
  lemma SortedAfterFirst(first: Tap, rest: seq<Tap>)
    requires first.dateTimeUtc.Some? && AllTimed(rest) && SortedByTime(rest)
    requires rest != [] ==> TimeOf(first) <= TimeOf(rest[0])
    ensures AllTimed([first] + rest) && SortedByTime([first] + rest)
  {
    var s := [first] + rest;
    forall i, j | 0 <= i < j < |s| ensures TimeOf(s[i]) <= TimeOf(s[j]) {
      if i == 0 && j > 1 {
        assert TimeOf(rest[0]) <= TimeOf(rest[j - 1]);
      }
    }
  }

  /** Inserting into a sorted list keeps it sorted. */
  lemma {:induction false} InsertKeepsSorted(tap: Tap, sorted: seq<Tap>)
    requires tap.dateTimeUtc.Some? && AllTimed(sorted) && SortedByTime(sorted)
    ensures SortedByTime(InsertByTime(tap, sorted))
  {
    if sorted == [] || TimeOf(tap) <= TimeOf(sorted[0]) {
      SortedAfterFirst(tap, sorted);
    } else {
      var tail := sorted[1..];
      assert SortedByTime(tail) by {
        forall i, j | 0 <= i < j < |tail| ensures TimeOf(tail[i]) <= TimeOf(tail[j]) {
          assert tail[i] == sorted[i + 1] && tail[j] == sorted[j + 1];
        }
      }
      InsertKeepsSorted(tap, tail);
      var rest := InsertByTime(tap, tail);
      assert tail != [] ==> TimeOf(sorted[0]) <= TimeOf(tail[0]);
      SortedAfterFirst(sorted[0], rest);
    }
  }

  /** The stable sort by timestamp applied to each group. */
  function SortByTime(taps: seq<Tap>): (sorted: seq<Tap>)
    requires AllTimed(taps)
    ensures AllTimed(sorted) && SortedByTime(sorted)
    ensures multiset(sorted) == multiset(taps)
    ensures |sorted| == |taps|
  {
    if taps == [] then []
    else
      assert taps == [taps[0]] + taps[1..];
      var rest := SortByTime(taps[1..]);
      InsertKeepsSorted(taps[0], rest);
      InsertByTime(taps[0], rest)
  }

  /** Sorting neither adds nor drops a tap. */
  lemma SortKeepsMembers(taps: seq<Tap>)
    requires AllTimed(taps)
    ensures forall t :: t in SortByTime(taps) <==> t in taps
  {
    var sorted := SortByTime(taps);
    forall t ensures t in sorted <==> t in taps {
      assert t in sorted <==> t in multiset(sorted);
      assert t in taps <==> t in multiset(taps);
    }
  }

  /** The taps of `s` stamped `time`, in their order in `s`. */
  function AtTime(s: seq<Tap>, time: int): seq<Tap> {
    if s == [] then []
    else (if s[0].dateTimeUtc == Some(time) then [s[0]] else []) + AtTime(s[1..], time)
  }

  lemma {:induction false} InsertAtTime(tap: Tap, sorted: seq<Tap>, time: int)
    requires tap.dateTimeUtc.Some? && AllTimed(sorted)
    ensures AtTime(InsertByTime(tap, sorted), time) ==
      (if tap.dateTimeUtc == Some(time) then [tap] else []) + AtTime(sorted, time)
  {
    var r := InsertByTime(tap, sorted);
    if sorted == [] || TimeOf(tap) <= TimeOf(sorted[0]) {
      assert r == [tap] + sorted;
      assert r[1..] == sorted;
    } else {
      var rest := InsertByTime(tap, sorted[1..]);
      assert r == [sorted[0]] + rest;
      assert r[1..] == rest;
      InsertAtTime(tap, sorted[1..], time);
      var head := if sorted[0].dateTimeUtc == Some(time) then [sorted[0]] else [];
      var mine := if tap.dateTimeUtc == Some(time) then [tap] else [];
      assert AtTime(r, time) == head + (mine + AtTime(sorted[1..], time));
      assert AtTime(sorted, time) == head + AtTime(sorted[1..], time);
      assert head == [] || mine == [];
    }
  }

  lemma {:induction false} AtTimeAppend(a: seq<Tap>, b: seq<Tap>, time: int)
    ensures AtTime(a + b, time) == AtTime(a, time) + AtTime(b, time)
    decreases |a|
  {
    if a == [] {
      assert a + b == b;
    } else {
      assert (a + b)[0] == a[0];
      assert (a + b)[1..] == a[1..] + b;
      AtTimeAppend(a[1..], b, time);
    }
  }

  /**
   * Grouping keeps encounter order: a traveller's taps stamped `time` appear in
   * its group in the order they have in the batch.
   */
  lemma {:induction false} GroupOfAtTime(taps: seq<Tap>, key: GroupKey, time: int)
    ensures AtTime(GroupOf(taps, key), time) == GroupOf(AtTime(taps, time), key)
    decreases |taps|
  {
    if taps != [] {
      var n := |taps| - 1;
      var init := taps[..n];
      var last := taps[n];
      assert taps == init + [last];
      GroupOfAtTime(init, key, time);
      var single := if KeyOf(last) == key then [last] else [];
      AtTimeAppend(GroupOf(init, key), single, time);
      AtTimeAppend(init, [last], time);
      GroupOfAppend(AtTime(init, time), AtTime([last], time), key);
      assert [last][1..] == [];
      assert GroupOf([last], key) == GroupOf([], key) + single by {
        assert [last][..0] == [];
      }
      if last.dateTimeUtc == Some(time) {
        assert AtTime([last], time) == [last];
        assert AtTime(single, time) == single;
      } else {
        assert AtTime([last], time) == [];
        assert AtTime(single, time) == [];
      }
    }
  }

  /** The sort is stable: taps with equal timestamps keep their input order. */
  lemma {:induction false} SortIsStable(taps: seq<Tap>, time: int)
    requires AllTimed(taps)
    ensures AtTime(SortByTime(taps), time) == AtTime(taps, time)
  {
    if taps != [] {
      SortIsStable(taps[1..], time);
      InsertAtTime(taps[0], SortByTime(taps[1..]), time);
    }
  }

  const GroupHeadTap: Tap := Tap(0, None, GroupHead, Unknown, Unknown, Unknown, Unknown)
  const GroupTailTap: Tap := Tap(0, None, GroupTail, Unknown, Unknown, Unknown, Unknown)

  /** A group as the scan sees it once the sentinels are in place. */
  function Padded(group: seq<Tap>): seq<Tap> {
    [GroupHeadTap] + group + [GroupTailTap]
  }

  /**
   * Appends a GROUP_TAIL with a null timestamp, then inserts a GROUP_HEAD at
   * index 0 and returns it as the first "previous" tap.
   */
  method AddHeadAndTail(group: ArrayList<Tap>) returns (previousTap: Tap)
    modifies group
    ensures group.items == Padded(old(group.items))
    ensures |group.items| == |old(group.items)| + 2
    ensures group.items[0].tapType == GroupHead && group.items[|group.items| - 1].tapType == GroupTail
    ensures group.items[|group.items| - 1].dateTimeUtc == None
    ensures group.items[1..|group.items| - 1] == old(group.items)
    ensures previousTap == GroupHeadTap
  {
    group.Add(GroupTailTap);
    previousTap := GroupHeadTap;
    group.AddAt(0, previousTap);
  }
}
