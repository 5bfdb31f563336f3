/**
 * The engagements collection of backend/internal/repository/engagement.go:
 * likes, views and upvotes as rows in insertion order. Nothing stops the
 * same user engaging twice with the same target, so the rows with one key
 * behave as a multiset: Create adds one, Delete removes one.
 */
module EngagementRepository {
  import opened Wrappers
  import opened ObjectIds
  import opened Models

  /** The four fields Exists and Delete filter on. */
  datatype EngagementKey = EngagementKey(userId: ObjectId, targetId: ObjectId, targetType: string, kind: string)

  function KeyOf(e: Engagement): EngagementKey
  {
    EngagementKey(e.userId, e.targetId, e.targetType, e.kind)
  }

  /** `CountDocuments` of the key's filter. */
  function MatchCount(s: seq<Engagement>, k: EngagementKey): (n: nat)
    ensures n <= |s|
    ensures n > 0 <==> exists i :: 0 <= i < |s| && KeyOf(s[i]) == k
  {
    if |s| == 0 then 0
    else
      var rest := MatchCount(s[1..], k);
      assert forall i :: 1 <= i < |s| ==> s[i] == s[1..][i - 1];
      (if KeyOf(s[0]) == k then 1 else 0) + rest
  }

  /** `DeleteOne`: the first row with the key removed, the others kept in order. */
  function RemoveFirst(s: seq<Engagement>, k: EngagementKey): (r: seq<Engagement>)
    ensures MatchCount(s, k) == 0 ==> r == s
    ensures MatchCount(s, k) > 0 ==> |r| == |s| - 1
  {
    if |s| == 0 then []
    else if KeyOf(s[0]) == k then s[1..]
    else [s[0]] + RemoveFirst(s[1..], k)
  }

  lemma {:induction false} MatchCountConcat(a: seq<Engagement>, b: seq<Engagement>, k: EngagementKey)
    ensures MatchCount(a + b, k) == MatchCount(a, k) + MatchCount(b, k)
  {
    if |a| == 0 {
      assert a + b == b;
    } else {
      assert (a + b)[1..] == a[1..] + b;
      MatchCountConcat(a[1..], b, k);
    }
  }

  /**
   * Delete removes one row of the key when there is one, and no row of any
   * other key: the count of the key drops by one (or stays at zero), and
   * every other key's count is unchanged.
   */
  lemma {:induction false} RemoveFirstCounts(s: seq<Engagement>, k: EngagementKey, other: EngagementKey)
    ensures MatchCount(RemoveFirst(s, k), k) == if MatchCount(s, k) == 0 then 0 else MatchCount(s, k) - 1
    ensures other != k ==> MatchCount(RemoveFirst(s, k), other) == MatchCount(s, other)
  {
    if |s| > 0 && KeyOf(s[0]) != k {
      RemoveFirstCounts(s[1..], k, other);
      MatchCountConcat([s[0]], RemoveFirst(s[1..], k), k);
      MatchCountConcat([s[0]], RemoveFirst(s[1..], k), other);
    }
  }

  /** Index of the first row with the key, or `|s|` when there is none. */
  function FirstWithKey(s: seq<Engagement>, k: EngagementKey): (i: nat)
    ensures i <= |s|
    ensures i < |s| ==> KeyOf(s[i]) == k
    ensures forall j :: 0 <= j < i ==> KeyOf(s[j]) != k
  {
    if |s| == 0 || KeyOf(s[0]) == k then 0 else 1 + FirstWithKey(s[1..], k)
  }

  /** Delete cuts out exactly the first row with the key, or nothing when there is none. */
  lemma {:induction false} RemoveFirstSplice(s: seq<Engagement>, k: EngagementKey)
    ensures var i := FirstWithKey(s, k);
      RemoveFirst(s, k) == if i < |s| then s[..i] + s[i + 1..] else s
  {
    if |s| > 0 && KeyOf(s[0]) != k {
      var t := s[1..];
      RemoveFirstSplice(t, k);
      assert s == [s[0]] + t;
      if FirstWithKey(t, k) < |t| {
        SpliceBehind(s[0], t, FirstWithKey(t, k));
      }
    }
  }

  /** Cutting a row out behind a kept head is cutting it out of the whole, one place further on. */
  lemma SpliceBehind(x: Engagement, t: seq<Engagement>, j: nat)
    requires j < |t|
    ensures [x] + (t[..j] + t[j + 1..]) == ([x] + t)[..j + 1] + ([x] + t)[j + 2..]
  {
    var s := [x] + t;
    assert s[..j + 1] == [x] + t[..j];
    assert s[j + 2..] == t[j + 1..];
  }

  /** Delete takes the one row out and puts nothing in. */
  lemma {:induction false} RemoveFirstMultiset(s: seq<Engagement>, k: EngagementKey)
    ensures var i := FirstWithKey(s, k);
      i < |s| ==> multiset(RemoveFirst(s, k)) + multiset{s[i]} == multiset(s)
  {
    RemoveFirstSplice(s, k);
    var i := FirstWithKey(s, k);
    if i < |s| {
      SpliceMultiset(s, i);
    }
  }

  /** Cutting out one element takes exactly that element out of the multiset. */
  lemma SpliceMultiset(s: seq<Engagement>, i: nat)
    requires i < |s|
    ensures multiset(s[..i] + s[i + 1..]) + multiset{s[i]} == multiset(s)
  {
    assert s == s[..i] + ([s[i]] + s[i + 1..]);
  }

  /** A row with an ID no other row has keeps the IDs distinct. */
  lemma AppendFreshId(rows: seq<Engagement>, x: Engagement)
    requires forall i, j :: 0 <= i < j < |rows| ==> rows[i].id != rows[j].id
    requires forall i :: 0 <= i < |rows| ==> rows[i].id != x.id
    ensures var r := rows + [x]; forall i, j :: 0 <= i < j < |r| ==> r[i].id != r[j].id
  {
    var r := rows + [x];
    assert forall i :: 0 <= i < |rows| ==> r[i] == rows[i];
  }

  class EngagementRepository {
    var rows: seq<Engagement>

    predicate Valid()
      reads this
    {
      forall i, j :: 0 <= i < j < |rows| ==> rows[i].id != rows[j].id
    }

    function Ids(): set<ObjectId>
      reads this
    {
      set i | 0 <= i < |rows| :: rows[i].id
    }

    constructor ()
      ensures rows == [] && Valid()
    {
      rows := [];
    }

    /** Create: fresh ID and clock reading, inserted with no duplicate check. */
    method Create(engagement: Engagement, id: ObjectId, now: Time) returns (stored: Engagement)
      requires Valid() && id !in Ids()
      modifies this
      ensures Valid()
      ensures stored == engagement.(id := id, createdAt := now)
      ensures rows == old(rows) + [stored]
      ensures Exists(KeyOf(engagement))
      ensures MatchCount(rows, KeyOf(engagement)) == MatchCount(old(rows), KeyOf(engagement)) + 1
    {
      stored := engagement.(id := id, createdAt := now);
      AppendFreshId(rows, stored);
      MatchCountConcat(rows, [stored], KeyOf(engagement));
      rows := rows + [stored];
    }

    /** Exists: some row matches all four of user, target, target type and kind. */
    function Exists(k: EngagementKey): (b: bool)
      reads this
      ensures b <==> exists i :: 0 <= i < |rows| && KeyOf(rows[i]) == k
    {
      MatchCount(rows, k) > 0
    }

    /** Delete: at most one matching row goes; the other rows stay, in order. */
    method Delete(k: EngagementKey)
      requires Valid()
      modifies this
      ensures Valid()
      ensures rows == RemoveFirst(old(rows), k)
      ensures MatchCount(rows, k) == if MatchCount(old(rows), k) == 0 then 0 else MatchCount(old(rows), k) - 1
    {
      RemoveFirstCounts(rows, k, k);
      RemoveFirstKeepsIds(rows, k);
      rows := RemoveFirst(rows, k);
    }
  }

  /** RemoveFirst keeps IDs distinct: the rows it leaves are rows of the original. */
  lemma {:induction false} RemoveFirstKeepsIds(s: seq<Engagement>, k: EngagementKey)
    requires forall i, j :: 0 <= i < j < |s| ==> s[i].id != s[j].id
    ensures var r := RemoveFirst(s, k); forall i, j :: 0 <= i < j < |r| ==> r[i].id != r[j].id
  {
    RemoveFirstSplice(s, k);
    var n := FirstWithKey(s, k);
    if n < |s| {
      SpliceKeepsIds(s, n);
    }
  }

  /** Cutting one row out of a table with distinct IDs leaves distinct IDs. */
  lemma SpliceKeepsIds(s: seq<Engagement>, n: nat)
    requires n < |s|
    requires forall i, j :: 0 <= i < j < |s| ==> s[i].id != s[j].id
    ensures var r := s[..n] + s[n + 1..]; forall i, j :: 0 <= i < j < |r| ==> r[i].id != r[j].id
  {
    var r := s[..n] + s[n + 1..];
    forall i, j | 0 <= i < j < |r| ensures r[i].id != r[j].id {
      var si := if i < n then i else i + 1;
      var sj := if j < n then j else j + 1;
      assert r[i] == s[si] && r[j] == s[sj];
    }
  }

  /**
   * Two engagements with the same key and then one Delete of that key leave
   * the key still existing: a double like is undone by one unlike only in
   * part.
   */
  lemma {:induction false} TwoCreatesOneDelete(s: seq<Engagement>, a: Engagement, b: Engagement)
    requires KeyOf(a) == KeyOf(b)
    ensures MatchCount(RemoveFirst(s + [a] + [b], KeyOf(a)), KeyOf(a)) > 0
  {
    var k := KeyOf(a);
    MatchCountConcat(s + [a], [b], k);
    MatchCountConcat(s, [a], k);
    RemoveFirstCounts(s + [a] + [b], k, k);
  }
}
