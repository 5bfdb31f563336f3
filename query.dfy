/**
 * What the repositories ask of MongoDB, over an in-memory table: find the
 * first row that matches, keep the rows a filter accepts, sort by several
 * keys, then skip and limit. A sort specification such as
 * `{likes_count: -1, upvotes_count: -1}` becomes a key function that maps a
 * row to a sequence of integers compared lexicographically, a descending
 * field contributing its negation.
 */
module Query {
  import opened Wrappers

  // ----- lexicographic order on integer keys -----

  /** `a` comes no later than `b` in lexicographic order. */
  predicate LexLe(a: seq<int>, b: seq<int>)
    decreases |a|
  {
    |a| == 0 || (|b| > 0 && (a[0] < b[0] || (a[0] == b[0] && LexLe(a[1..], b[1..]))))
  }

  lemma {:induction false} LexLeTotal(a: seq<int>, b: seq<int>)
    ensures LexLe(a, b) || LexLe(b, a)
    decreases |a|
  {
    if |a| > 0 && |b| > 0 && a[0] == b[0] {
      LexLeTotal(a[1..], b[1..]);
    }
  }

  lemma {:induction false} LexLeTransitive(a: seq<int>, b: seq<int>, c: seq<int>)
    requires LexLe(a, b) && LexLe(b, c)
    ensures LexLe(a, c)
    decreases |a|
  {
    if |a| > 0 && a[0] == b[0] && b[0] == c[0] {
      LexLeTransitive(a[1..], b[1..], c[1..]);
    }
  }

  // ----- sorting by key -----

  /** Every row comes no later than the rows after it. */
  ghost predicate SortedByKey<T>(s: seq<T>, key: T -> seq<int>)
  {
    forall i, j :: 0 <= i < j < |s| ==> LexLe(key(s[i]), key(s[j]))
  }

  /** `x` placed before the first row it does not come after. */
  function Insert<T>(x: T, s: seq<T>, key: T -> seq<int>): (r: seq<T>)
    ensures multiset(r) == multiset(s) + multiset{x}
  {
    if |s| == 0 then [x]
    else if LexLe(key(x), key(s[0])) then [x] + s
    else
      assert s == [s[0]] + s[1..];
      [s[0]] + Insert(x, s[1..], key)
  }

  /**
   * A stable sort by key (insertion sort): rows with equal keys keep their
   * insertion order. MongoDB leaves the order of equal keys unspecified; the
   * model fixes it to insertion order.
   */
  function SortByKey<T>(s: seq<T>, key: T -> seq<int>): (r: seq<T>)
    ensures multiset(r) == multiset(s)
  {
    if |s| == 0 then []
    else
      assert s == [s[0]] + s[1..];
      Insert(s[0], SortByKey(s[1..], key), key)
  }

  lemma {:induction false} InsertSorted<T>(x: T, s: seq<T>, key: T -> seq<int>)
    requires SortedByKey(s, key)
    ensures SortedByKey(Insert(x, s, key), key)
  {
    var r := Insert(x, s, key);
    if |s| == 0 {
    } else if LexLe(key(x), key(s[0])) {
      forall i, j | 0 <= i < j < |r| ensures LexLe(key(r[i]), key(r[j])) {
        if i == 0 {
          if j > 1 { LexLeTransitive(key(x), key(s[0]), key(s[j - 1])); }
        }
      }
    } else {
      LexLeTotal(key(x), key(s[0]));
      InsertSorted(x, s[1..], key);
      var t := Insert(x, s[1..], key);
      assert r == [s[0]] + t;
      forall j | 0 <= j < |t| ensures LexLe(key(s[0]), key(t[j])) {
        assert t[j] in multiset(t);
        assert t[j] == x || t[j] in multiset(s[1..]);
        if t[j] != x {
          var k :| 1 <= k < |s| && s[k] == t[j];
        }
      }
      forall i, j | 0 <= i < j < |r| ensures LexLe(key(r[i]), key(r[j])) {
        if i > 0 {
          assert LexLe(key(t[i - 1]), key(t[j - 1]));
        } else {
          assert LexLe(key(s[0]), key(t[j - 1]));
        }
      }
    }
  }

  /** The sort produces rows in key order. */
  lemma {:induction false} SortByKeySorted<T>(s: seq<T>, key: T -> seq<int>)
    ensures SortedByKey(SortByKey(s, key), key)
  {
    if |s| > 0 {
      SortByKeySorted(s[1..], key);
      InsertSorted(s[0], SortByKey(s[1..], key), key);
    }
  }

  // ----- filtering and lookup -----

  /** The rows `keep` accepts, in their original order. */
  function Filter<T>(s: seq<T>, keep: T -> bool): (r: seq<T>)
    ensures |r| <= |s|
    ensures forall i :: 0 <= i < |r| ==> r[i] in s && keep(r[i])
    ensures forall i :: 0 <= i < |s| && keep(s[i]) ==> s[i] in r
  {
    if |s| == 0 then []
    else (if keep(s[0]) then [s[0]] else []) + Filter(s[1..], keep)
  }

  /** A single row is kept exactly when the filter accepts it. */
  lemma FilterSingle<T>(x: T, keep: T -> bool)
    ensures Filter([x], keep) == if keep(x) then [x] else []
  {
    assert [x][1..] == [];
  }

  /**
   * Filtering a concatenation filters each part and concatenates: the rows
   * kept stay in their order, each as often as it occurs.
   */
  lemma {:induction false} FilterConcat<T>(a: seq<T>, b: seq<T>, keep: T -> bool)
    ensures Filter(a + b, keep) == Filter(a, keep) + Filter(b, keep)
  {
    if |a| == 0 {
      assert a + b == b;
    } else {
      assert (a + b)[0] == a[0];
      assert (a + b)[1..] == a[1..] + b;
      FilterConcat(a[1..], b, keep);
    }
  }

  /** A filter that accepts every row keeps the whole table. */
  lemma {:induction false} FilterAll<T>(s: seq<T>, keep: T -> bool)
    requires forall i :: 0 <= i < |s| ==> keep(s[i])
    ensures Filter(s, keep) == s
  {
    if |s| > 0 {
      FilterAll(s[1..], keep);
    }
  }

  /** Index of the first row `matches` accepts, or `|s|` when none does. */
  function FirstIndex<T>(s: seq<T>, matches: T -> bool): (i: nat)
    ensures i <= |s|
    ensures i < |s| ==> matches(s[i])
    ensures forall k :: 0 <= k < i ==> !matches(s[k])
  {
    if |s| == 0 then 0
    else if matches(s[0]) then 0
    else 1 + FirstIndex(s[1..], matches)
  }

  /**
   * FindOne without a sort: a match, if any. MongoDB's natural order is
   * unspecified; the model takes the first match in insertion order.
   */
  function FindOne<T>(s: seq<T>, matches: T -> bool): (r: Option<T>)
    ensures r.Some? <==> exists i :: 0 <= i < |s| && matches(s[i])
    ensures r.Some? ==> r.value in s && matches(r.value)
  {
    var i := FirstIndex(s, matches);
    if i < |s| then Some(s[i]) else None
  }

  /** A row appended to a table where nothing matched is the one FindOne finds. */
  lemma FindOneAppendNew<T>(s: seq<T>, x: T, matches: T -> bool)
    requires FindOne(s, matches).None? && matches(x)
    ensures FindOne(s + [x], matches) == Some(x)
  {
    var t := s + [x];
    assert t[|s|] == x;
  }

  /** Every row that `matches` accepts replaced by `f` of it; the others untouched. */
  function UpdateWhere<T>(s: seq<T>, matches: T -> bool, f: T -> T): (r: seq<T>)
    ensures |r| == |s|
    ensures forall i :: 0 <= i < |s| ==> r[i] == if matches(s[i]) then f(s[i]) else s[i]
  {
    seq(|s|, i requires 0 <= i < |s| => if matches(s[i]) then f(s[i]) else s[i])
  }

  // ----- skip and limit -----

  function Min(a: int, b: int): int
  {
    if a <= b then a else b
  }

  /**
   * MongoDB's limit: 0 means no limit, a positive n keeps the first n rows
   * and a negative n keeps the first -n (a single batch).
   */
  function Take<T>(s: seq<T>, limit: int): (r: seq<T>)
    ensures |r| <= |s| && r == s[..|r|]
    ensures limit == 0 ==> r == s
    ensures limit > 0 ==> |r| == Min(limit, |s|)
    ensures limit < 0 ==> |r| == Min(-limit, |s|)
  {
    var n := if limit < 0 then -limit else limit;
    if limit == 0 || n >= |s| then s else s[..n]
  }

  /**
   * Skip, then limit. The server refuses a negative skip; otherwise the
   * result is the run of rows that starts at position `skip`.
   */
  function Page<T>(s: seq<T>, skip: int, limit: int): (r: Result<seq<T>, string>)
    ensures r.Failure? <==> skip < 0
    ensures r.Success? ==>
      var from := Min(skip, |s|);
      from + |r.value| <= |s| && r.value == s[from..from + |r.value|]
    ensures r.Success? && limit > 0 ==> |r.value| == Min(limit, |s| - Min(skip, |s|))
    ensures r.Success? && limit == 0 ==> |r.value| == |s| - Min(skip, |s|)
  {
    if skip < 0 then Failure("skip value must be non-negative")
    else
      var rest := s[Min(skip, |s|)..];
      Success(Take(rest, limit))
  }

  /** A run of consecutive rows of a sorted table is sorted. */
  lemma WindowSorted<T>(s: seq<T>, from: nat, to: nat, key: T -> seq<int>)
    requires from <= to <= |s|
    requires SortedByKey(s, key)
    ensures SortedByKey(s[from..to], key)
  {
    var w := s[from..to];
    forall i, j | 0 <= i < j < |w| ensures LexLe(key(w[i]), key(w[j])) {
      assert w[i] == s[from + i] && w[j] == s[from + j];
    }
  }

  /** Every row of a run comes from the table. */
  lemma WindowIn<T>(s: seq<T>, from: nat, to: nat)
    requires from <= to <= |s|
    ensures forall i :: 0 <= i < to - from ==> s[from..to][i] in s
  {
    forall i | 0 <= i < to - from ensures s[from..to][i] in s {
      assert s[from..to][i] == s[from + i];
    }
  }

  // ----- a whole find: filter, sort, skip, limit -----

  /** The error the server gives for a negative skip. */
  const NegativeSkip := "skip value must be non-negative"

  /**
   * `collection.Find(filter, sort, skip, limit)`: the rows `keep` accepts,
   * sorted by `key`, then the run of them that starts after the first
   * `skip`. Every row returned is a stored row the filter accepts, the rows
   * come in key order, and with no skip and no limit they are all the
   * accepted rows.
   */
  function Select<T>(s: seq<T>, keep: T -> bool, key: T -> seq<int>, skip: int, limit: int): (r: Result<seq<T>, string>)
    ensures r.Failure? <==> skip < 0
    ensures r.Failure? ==> r.error == NegativeSkip
    ensures r.Success? ==> forall i :: 0 <= i < |r.value| ==> r.value[i] in s && keep(r.value[i])
    ensures r.Success? ==> SortedByKey(r.value, key)
    ensures r.Success? ==>
      var all := SortByKey(Filter(s, keep), key);
      var from := Min(skip, |all|);
      from + |r.value| <= |all| && r.value == all[from..from + |r.value|] &&
      (limit > 0 ==> |r.value| == Min(limit, |all| - from)) &&
      (limit == 0 ==> |r.value| == |all| - from)
    ensures r.Success? && limit > 0 ==> |r.value| <= limit
    ensures skip == 0 && limit == 0 ==> r.Success? && multiset(r.value) == multiset(Filter(s, keep))
  {
    var all := SortByKey(Filter(s, keep), key);
    SortedAccepted(s, keep, key);
    SelectPage(s, keep, key, all, skip, limit);
    Page(all, skip, limit)
  }

  /** A page of sorted accepted rows is sorted and holds only accepted stored rows; with no skip and no limit it is all of them. */
  lemma SelectPage<T>(s: seq<T>, keep: T -> bool, key: T -> seq<int>, all: seq<T>, skip: int, limit: int)
    requires SortedByKey(all, key)
    requires forall i :: 0 <= i < |all| ==> all[i] in s && keep(all[i])
    ensures var r := Page(all, skip, limit);
      r.Success? ==> SortedByKey(r.value, key) && forall i :: 0 <= i < |r.value| ==> r.value[i] in s && keep(r.value[i])
    ensures skip == 0 && limit == 0 ==> Page(all, skip, limit) == Success(all)
  {
    var page := Page(all, skip, limit);
    if page.Success? {
      var from := Min(skip, |all|);
      var w := page.value;
      WindowSorted(all, from, from + |w|, key);
      forall i | 0 <= i < |w| ensures w[i] in s && keep(w[i]) {
        assert w[i] == all[from + i];
      }
    }
    if skip == 0 && limit == 0 {
      assert page.value == all[0..|all|] == all;
    }
  }

  /** The accepted rows in key order are sorted and each is a stored row the filter accepts. */
  lemma SortedAccepted<T>(s: seq<T>, keep: T -> bool, key: T -> seq<int>)
    ensures var all := SortByKey(Filter(s, keep), key);
      SortedByKey(all, key) && forall i :: 0 <= i < |all| ==> all[i] in s && keep(all[i])
  {
    var matching := Filter(s, keep);
    SortByKeySorted(matching, key);
    PermutedAccepted(s, keep, matching, SortByKey(matching, key));
  }

  /** A reordering of accepted stored rows holds only accepted stored rows. */
  lemma PermutedAccepted<T>(s: seq<T>, keep: T -> bool, matching: seq<T>, all: seq<T>)
    requires multiset(all) == multiset(matching)
    requires forall i :: 0 <= i < |matching| ==> matching[i] in s && keep(matching[i])
    ensures forall i :: 0 <= i < |all| ==> all[i] in s && keep(all[i])
  {
    forall i | 0 <= i < |all| ensures all[i] in s && keep(all[i]) {
      assert all[i] in multiset(all);
      var k :| 0 <= k < |matching| && matching[k] == all[i];
    }
  }
}
