/**
 * Ordering of query results by a numeric column. The store's
 * `order(column, ...)` and the client's in-memory `sort` by timestamp are
 * both modelled by one insertion sort on a real-valued key;
 * descending order is ascending order on the negated key.
 */
module Ordering {
  import opened Records

  predicate SortedBy<T>(s: seq<T>, key: T -> real)
  {
    forall i, j :: 0 <= i < j < |s| ==> key(s[i]) <= key(s[j])
  }

  /** Inserts x in front of the first element whose key is larger. */
  function InsertBy<T(==)>(x: T, s: seq<T>, key: T -> real): (r: seq<T>)
    requires SortedBy(s, key)
    ensures SortedBy(r, key)
    ensures multiset(r) == multiset(s) + multiset{x}
    ensures |r| == |s| + 1
  {
    if |s| == 0 then [x]
    else if key(x) <= key(s[0]) then [x] + s
    else
      var rest := InsertBy(x, s[1..], key);
      assert s == [s[0]] + s[1..];
      assert forall k :: 0 <= k < |rest| ==> key(s[0]) <= key(rest[k]) by {
        forall k | 0 <= k < |rest| ensures key(s[0]) <= key(rest[k]) {
          assert rest[k] in multiset(rest);
          assert rest[k] == x || rest[k] in multiset(s[1..]);
        }
      }
      [s[0]] + rest
  }

  /** The elements of s, ordered by ascending key. */
  function SortBy<T(==)>(s: seq<T>, key: T -> real): (r: seq<T>)
    ensures SortedBy(r, key)
    ensures multiset(r) == multiset(s)
    ensures |r| == |s|
  {
    if |s| == 0 then []
    else
      assert s == [s[0]] + s[1..];
      InsertBy(s[0], SortBy(s[1..], key), key)
  }

  /** A prefix of a sorted sequence is sorted and is drawn from it. */
  lemma {:induction false} SortedPrefix<T>(s: seq<T>, n: nat, key: T -> real)
    requires SortedBy(s, key)
    requires n <= |s|
    ensures SortedBy(s[..n], key)
    ensures multiset(s[..n]) <= multiset(s)
  {
    assert s == s[..n] + s[n..];
  }

  // ---------------------------------------------------------------------
  // Recent activities: newest first, at most five.

  function NewestKey(a: Activity): real
  {
    -(a.createdAt as real)
  }

  /** The activities ordered by created_at, latest first. */
  function NewestFirst(acts: seq<Activity>): seq<Activity>
  {
    SortBy(acts, NewestKey)
  }

  /** `slice(0, 5)`. */
  function FirstFive<T>(s: seq<T>): seq<T>
  {
    s[..if |s| < 5 then |s| else 5]
  }

  function Recent(acts: seq<Activity>): seq<Activity>
  {
    FirstFive(NewestFirst(acts))
  }

  /**
   * The recent list holds at most five of the activities, latest
   * first, and is the head of the whole list ordered latest first.
   */
  lemma RecentMeaning(acts: seq<Activity>)
    ensures |Recent(acts)| == if |acts| < 5 then |acts| else 5
    ensures forall i, j :: 0 <= i < j < |Recent(acts)| ==> Recent(acts)[i].createdAt >= Recent(acts)[j].createdAt
    ensures Recent(acts) == NewestFirst(acts)[..|Recent(acts)|]
    ensures multiset(Recent(acts)) <= multiset(acts)
    ensures forall i, j :: 0 <= i < j < |NewestFirst(acts)| ==> NewestFirst(acts)[i].createdAt >= NewestFirst(acts)[j].createdAt
    ensures multiset(NewestFirst(acts)) == multiset(acts)
  {
    var all := NewestFirst(acts);
    SortedPrefix(all, |Recent(acts)|, NewestKey);
    assert forall i, j :: 0 <= i < j < |all| ==> NewestKey(all[i]) <= NewestKey(all[j]);
  }
}
