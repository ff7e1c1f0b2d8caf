/**
 * The audio items of one simulation, as read from its JSON file, and the stable
 * in-place sort by sequence number that process_transcripts applies to them.
 */
module Audio {
  import opened Wrappers

  /** What item.get("actor", "Unknown") sees: no such key, a JSON null, or a name. */
  datatype Actor = NoActorKey | NullActor | Named(name: string)

  /**
   * One element of audio_items: a JSON object, of which only the keys sequenceNumber,
   * actor and fileTranscript are read, or any other JSON value. A fileTranscript that is
   * missing, null or not a string is None.
   */
  datatype AudioItem =
    | Entry(sequenceNumber: Option<int>, actor: Actor, fileTranscript: Option<string>)
    | NotAnObject

  /** The sort key: the sequence number, 0 when it is missing or the item is not an object. */
  function SortKey(item: AudioItem): int {
    match item
    case Entry(Some(n), _, _) => n
    case _ => 0
  }

  predicate Sorted(s: seq<AudioItem>) {
    forall i, j :: 0 <= i < j < |s| ==> SortKey(s[i]) <= SortKey(s[j])
  }

  /** `x` placed after every trailing element whose key exceeds its own: insertion that keeps ties in order. */
  function Insert(r: seq<AudioItem>, x: AudioItem): seq<AudioItem>
    decreases |r|
  {
    if r == [] || SortKey(r[|r| - 1]) <= SortKey(x) then r + [x]
    else Insert(r[..|r| - 1], x) + [r[|r| - 1]]
  }

  /** The stable sort by SortKey, as insertion of each item in turn. */
  function SortByKey(s: seq<AudioItem>): seq<AudioItem> {
    if s == [] then [] else Insert(SortByKey(s[..|s| - 1]), s[|s| - 1])
  }

  /** The items of `s` whose key is `k`, in order. */
  function WithKey(s: seq<AudioItem>, k: int): seq<AudioItem> {
    if s == [] then []
    else WithKey(s[..|s| - 1], k) + (if SortKey(s[|s| - 1]) == k then [s[|s| - 1]] else [])
  }

  lemma {:induction false} InsertPermutes(r: seq<AudioItem>, x: AudioItem)
    ensures multiset(Insert(r, x)) == multiset(r) + multiset{x}
    decreases |r|
  {
    if !(r == [] || SortKey(r[|r| - 1]) <= SortKey(x)) {
      InsertPermutes(r[..|r| - 1], x);
      assert r == r[..|r| - 1] + [r[|r| - 1]];
    }
  }

  lemma {:induction false} InsertSorted(r: seq<AudioItem>, x: AudioItem)
    requires Sorted(r)
    ensures Sorted(Insert(r, x))
    decreases |r|
  {
    if !(r == [] || SortKey(r[|r| - 1]) <= SortKey(x)) {
      var init, last := r[..|r| - 1], r[|r| - 1];
      InsertSorted(init, x);
      InsertPermutes(init, x);
      var ins := Insert(init, x);
      forall m | 0 <= m < |ins| ensures SortKey(ins[m]) <= SortKey(last) {
        assert ins[m] in multiset(ins);
        assert ins[m] in multiset(init) || ins[m] == x;
        if ins[m] != x {
          var n :| 0 <= n < |init| && init[n] == ins[m];
        }
      }
    }
  }

  /** The sort orders by key. */
  lemma {:induction false} SortSorted(s: seq<AudioItem>)
    ensures Sorted(SortByKey(s))
  {
    if s != [] {
      SortSorted(s[..|s| - 1]);
      InsertSorted(SortByKey(s[..|s| - 1]), s[|s| - 1]);
    }
  }

  /** The sort neither loses nor adds items. */
  lemma {:induction false} SortPermutes(s: seq<AudioItem>)
    ensures multiset(SortByKey(s)) == multiset(s)
  {
    if s != [] {
      SortPermutes(s[..|s| - 1]);
      InsertPermutes(SortByKey(s[..|s| - 1]), s[|s| - 1]);
      assert s == s[..|s| - 1] + [s[|s| - 1]];
    }
  }

  lemma {:induction false} InsertWithKey(r: seq<AudioItem>, x: AudioItem, k: int)
    requires Sorted(r)
    ensures WithKey(Insert(r, x), k) == WithKey(r, k) + (if SortKey(x) == k then [x] else [])
    decreases |r|
  {
    if r == [] || SortKey(r[|r| - 1]) <= SortKey(x) {
      assert (r + [x])[..|r|] == r;
    } else {
      var init, last := r[..|r| - 1], r[|r| - 1];
      InsertWithKey(init, x, k);
      var ins := Insert(init, x);
      assert (ins + [last])[..|ins|] == ins;
    }
  }

  /** Stability: for every key, the items with that key keep their relative order. */
  lemma {:induction false} SortStable(s: seq<AudioItem>, k: int)
    ensures WithKey(SortByKey(s), k) == WithKey(s, k)
  {
    if s != [] {
      SortStable(s[..|s| - 1], k);
      SortSorted(s[..|s| - 1]);
      InsertWithKey(SortByKey(s[..|s| - 1]), s[|s| - 1], k);
    }
  }

  /** Sorting an already sorted list changes nothing. */
  lemma {:induction false} SortOfSorted(s: seq<AudioItem>)
    requires Sorted(s)
    ensures SortByKey(s) == s
  {
    if s != [] {
      SortOfSorted(s[..|s| - 1]);
      assert s == s[..|s| - 1] + [s[|s| - 1]];
    }
  }

  /** Sorting twice is sorting once. */
  lemma SortIdempotent(s: seq<AudioItem>)
    ensures SortByKey(SortByKey(s)) == SortByKey(s)
  {
    SortSorted(s);
    SortOfSorted(SortByKey(s));
  }

  /** Insertion lands after the last element whose key does not exceed the inserted one. */
  lemma {:induction false} InsertAt(r: seq<AudioItem>, j: nat, x: AudioItem)
    requires j <= |r|
    requires j == 0 || SortKey(r[j - 1]) <= SortKey(x)
    requires forall m :: j <= m < |r| ==> SortKey(r[m]) > SortKey(x)
    ensures Insert(r, x) == r[..j] + [x] + r[j..]
    decreases |r|
  {
    if j < |r| {
      var init := r[..|r| - 1];
      InsertAt(init, j, x);
      assert init[..j] == r[..j];
      assert init[j..] + [r[|r| - 1]] == r[j..];
    }
  }

  /** One pass of insertion: the item at `i` moves left past every larger key before it. */
  method InsertInto(a: array<AudioItem>, i: nat)
    requires i < a.Length
    modifies a
    ensures a[..i + 1] == Insert(old(a[..i]), old(a[i]))
    ensures a[i + 1..] == old(a[i + 1..])
  {
    ghost var sorted := a[..i];
    var x := a[i];
    var j := i;
    while j > 0 && SortKey(a[j - 1]) > SortKey(x)
      invariant 0 <= j <= i
      invariant forall m :: 0 <= m < j ==> a[m] == sorted[m]
      invariant forall m :: j < m <= i ==> a[m] == sorted[m - 1]
      invariant forall m :: i < m < a.Length ==> a[m] == old(a[m])
      invariant forall m :: j <= m < i ==> SortKey(sorted[m]) > SortKey(x)
    {
      a[j] := a[j - 1];
      j := j - 1;
    }
    a[j] := x;
    InsertAt(sorted, j, x);
    assert a[..i + 1] == sorted[..j] + [x] + sorted[j..];
  }

  lemma SortStep(s: seq<AudioItem>, i: nat)
    requires i < |s|
    ensures SortByKey(s[..i + 1]) == Insert(SortByKey(s[..i]), s[i])
  {
    assert s[..i + 1][..i] == s[..i];
  }

  /** list.sort(key=...): a stable sort of the array in place. */
  method SortItems(a: array<AudioItem>)
    modifies a
    ensures a[..] == SortByKey(old(a[..]))
  {
    ghost var s := a[..];
    var i := 0;
    while i < a.Length
      invariant 0 <= i <= a.Length
      invariant a[..i] == SortByKey(s[..i])
      invariant a[i..] == s[i..]
    {
      assert a[i] == s[i];
      ghost var done := a[..i];
      InsertInto(a, i);
      SortStep(s, i);
      assert a[..i + 1] == Insert(done, s[i]);
      assert a[i + 1..] == s[i + 1..];
      i := i + 1;
    }
    assert s[..a.Length] == s;
  }
}
