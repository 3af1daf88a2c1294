/**
 * The client's recent-searches list (`saveToRecent`): the searched name goes
 * to the front, earlier entries equal to it ignoring case are dropped, and
 * the list is cut to five entries. Reading and writing browser storage is
 * not modelled; the list is a value.
 */
module RecentSearches {
  import opened Text

  /** How many names the list keeps (`.slice(0, 5)`). */
  const Capacity: nat := 5

  /** `a` is `b` with some entries removed, the rest in their original order. */
  predicate IsSubsequence<T(==)>(a: seq<T>, b: seq<T>)
    decreases |b|
  {
    |a| == 0 || (0 < |b| && (if a[0] == b[0] then IsSubsequence(a[1..], b[1..]) else IsSubsequence(a, b[1..])))
  }

  /** No two entries are equal ignoring case. */
  predicate NoDuplicates(s: seq<string>) {
    forall i, j :: 0 <= i < j < |s| ==> !EqualsIgnoreCase(s[i], s[j])
  }

  /** `recent.filter(n => n.toLowerCase() !== name.toLowerCase())`. */
  function Without(recent: seq<string>, name: string): (r: seq<string>)
    ensures forall x :: x in r ==> x in recent && !EqualsIgnoreCase(x, name)
    ensures forall x :: x in recent && !EqualsIgnoreCase(x, name) ==> x in r
    ensures IsSubsequence(r, recent)
    ensures NoDuplicates(recent) ==> NoDuplicates(r)
    decreases |recent|
  {
    if |recent| == 0 then []
    else
      var rest := Without(recent[1..], name);
      assert NoDuplicates(recent) ==> NoDuplicates(recent[1..]) by {
        if NoDuplicates(recent) {
          forall i, j | 0 <= i < j < |recent[1..]|
            ensures !EqualsIgnoreCase(recent[1..][i], recent[1..][j])
          {
            assert recent[1..][i] == recent[i + 1] && recent[1..][j] == recent[j + 1];
          }
        }
      }
      if EqualsIgnoreCase(recent[0], name) then rest
      else
        var r := [recent[0]] + rest;
        assert NoDuplicates(recent) ==> NoDuplicates(r) by {
          if NoDuplicates(recent) {
            forall i, j | 0 <= i < j < |r|
              ensures !EqualsIgnoreCase(r[i], r[j])
            {
              if i == 0 {
                assert r[j] in recent[1..];
                var k :| 0 <= k < |recent[1..]| && recent[1..][k] == r[j];
                assert recent[k + 1] == r[j];
              } else {
                assert r[i] == rest[i - 1] && r[j] == rest[j - 1];
              }
            }
          }
        }
        r
  }

  /**
   * The list after `saveToRecent(name)`: at most five entries, `name` first
   * with its casing as given, no later entry equal to it ignoring case, the
   * later entries a subsequence of the old list, and (while the list is not
   * full) every other old entry still present; when it is full, the entries
   * dropped are the oldest ones.
   */
  function SaveToRecent(recent: seq<string>, name: string): (r: seq<string>)
    ensures 0 < |r| <= Capacity
    ensures r[0] == name
    ensures forall i :: 1 <= i < |r| ==> !EqualsIgnoreCase(r[i], name)
    ensures IsSubsequence(r[1..], recent)
    ensures |r| < Capacity ==> forall x :: x in recent && !EqualsIgnoreCase(x, name) ==> x in r
    ensures |r| - 1 <= |Without(recent, name)| && r[1..] == Without(recent, name)[..|r| - 1]
    ensures |r| == if |Without(recent, name)| < Capacity then |Without(recent, name)| + 1 else Capacity
    ensures NoDuplicates(recent) ==> NoDuplicates(r)
  {
    var kept := Without(recent, name);
    var n := if |kept| < Capacity then |kept| else Capacity - 1;
    var r := [name] + kept[..n];
    assert r[1..] == kept[..n] && |r| == n + 1;
    forall j | 1 <= j < |r|
      ensures r[j] == kept[j - 1] && r[j] in kept
    {
      assert r[j] == kept[..n][j - 1];
    }
    PrefixIsSubsequence(kept, recent, n);
    assert NoDuplicates(recent) ==> NoDuplicates(r) by {
      if NoDuplicates(recent) {
        forall i, j | 0 <= i < j < |r|
          ensures !EqualsIgnoreCase(r[i], r[j])
        {
          if i == 0 {
            EqualsIgnoreCaseEquivalence(r[j], name, name);
          } else {
            assert r[i] == kept[i - 1] && r[j] == kept[j - 1];
          }
        }
      }
    }
    r
  }

  /**
   * The filter keeps every entry not equal to `name` ignoring case exactly as
   * often as the list holds it, exact duplicates included, and drops every
   * other entry.
   */
  lemma {:induction false} WithoutCounts(recent: seq<string>, name: string)
    ensures forall x :: multiset(Without(recent, name))[x]
                        == if EqualsIgnoreCase(x, name) then 0 else multiset(recent)[x]
    decreases |recent|
  {
    if |recent| > 0 {
      WithoutCounts(recent[1..], name);
      assert recent == [recent[0]] + recent[1..];
    }
  }

  /** A prefix of a subsequence is a subsequence. */
  lemma {:induction false} PrefixIsSubsequence<T>(a: seq<T>, b: seq<T>, k: nat)
    requires k <= |a| && IsSubsequence(a, b)
    ensures IsSubsequence(a[..k], b)
    decreases |b|
  {
    if k > 0 {
      if a[0] == b[0] {
        PrefixIsSubsequence(a[1..], b[1..], k - 1);
        assert a[..k][1..] == a[1..][..k - 1];
      } else {
        PrefixIsSubsequence(a, b[1..], k);
      }
    }
  }

  /** Filtering out a name no entry equals leaves the list unchanged. */
  lemma {:induction false} WithoutAbsent(recent: seq<string>, name: string)
    requires forall i :: 0 <= i < |recent| ==> !EqualsIgnoreCase(recent[i], name)
    ensures Without(recent, name) == recent
    decreases |recent|
  {
    if |recent| > 0 {
      WithoutAbsent(recent[1..], name);
    }
  }

  /** Searching the same name twice in a row leaves the list as after the first search. */
  lemma SaveToRecentIdempotent(recent: seq<string>, name: string)
    ensures SaveToRecent(SaveToRecent(recent, name), name) == SaveToRecent(recent, name)
  {
    SavedListIsFixed(SaveToRecent(recent, name), name);
  }

  /** A list that already starts with `name` and is otherwise free of it is unchanged by saving `name`. */
  lemma SavedListIsFixed(r: seq<string>, name: string)
    requires 0 < |r| <= Capacity && r[0] == name
    requires forall i :: 1 <= i < |r| ==> !EqualsIgnoreCase(r[i], name)
    ensures SaveToRecent(r, name) == r
  {
    EqualsIgnoreCaseEquivalence(name, name, name);
    WithoutAbsent(r[1..], name);
    assert Without(r, name) == r[1..];
    assert r == [r[0]] + r[1..];
  }

  /** Saving a name the list already holds, ignoring case, does not lengthen the list. */
  lemma SaveToRecentMovesToFront(recent: seq<string>, name: string, i: nat)
    requires i < |recent| && EqualsIgnoreCase(recent[i], name)
    ensures |SaveToRecent(recent, name)| <= |recent|
  {
    WithoutShorter(recent, name, i);
  }

  /** Filtering out a name that some entry equals shortens the list. */
  lemma {:induction false} WithoutShorter(recent: seq<string>, name: string, i: nat)
    requires i < |recent| && EqualsIgnoreCase(recent[i], name)
    ensures |Without(recent, name)| < |recent|
    decreases |recent|
  {
    if i > 0 {
      WithoutShorter(recent[1..], name, i - 1);
    } else {
      WithoutNoLonger(recent[1..], name);
    }
  }

  lemma {:induction false} WithoutNoLonger(recent: seq<string>, name: string)
    ensures |Without(recent, name)| <= |recent|
    decreases |recent|
  {
    if |recent| > 0 {
      WithoutNoLonger(recent[1..], name);
    }
  }
}
