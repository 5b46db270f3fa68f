/** The checkbox toggle the registration page and the event form share:
    `list.includes(x) ? list.filter(i => i !== x) : [...list, x]`. */
module Selection {
  /** `list.filter(i => i !== x)`. */
  function RemoveAll<T(==)>(s: seq<T>, x: T): (r: seq<T>)
    ensures |r| <= |s|
  {
    if s == [] then []
    else if s[0] == x then RemoveAll(s[1..], x)
    else [s[0]] + RemoveAll(s[1..], x)
  }

  /** Clicking `x`: a selected value is removed, every occurrence of it; an
      unselected one is appended at the end. */
  function Toggle<T(==)>(s: seq<T>, x: T): seq<T> {
    if x in s then RemoveAll(s, x) else s + [x]
  }

  /** The filter keeps every other value and drops every copy of `x`. */
  lemma {:induction false} RemoveAllMembers<T>(s: seq<T>, x: T)
    ensures forall y :: y in RemoveAll(s, x) <==> y in s && y != x
    decreases |s|
  {
    if s != [] {
      RemoveAllMembers(s[1..], x);
      assert s == [s[0]] + s[1..];
    }
  }

  /** The filter keeps the order of what remains: it distributes over
      concatenation. */
  lemma {:induction false} RemoveAllAppend<T>(a: seq<T>, b: seq<T>, x: T)
    ensures RemoveAll(a + b, x) == RemoveAll(a, x) + RemoveAll(b, x)
    decreases |a|
  {
    if a == [] {
      assert a + b == b;
    } else {
      assert (a + b)[1..] == a[1..] + b;
      RemoveAllAppend(a[1..], b, x);
    }
  }

  /** Removing a value that is not there changes nothing. */
  lemma {:induction false} RemoveAbsent<T>(s: seq<T>, x: T)
    requires x !in s
    ensures RemoveAll(s, x) == s
    decreases |s|
  {
    if s != [] {
      assert s[0] != x;
      RemoveAbsent(s[1..], x);
    }
  }

  /** After a toggle a value is selected exactly when it was selected before
      and is another value, or it is `x` and `x` was not selected. */
  lemma ToggleMembers<T>(s: seq<T>, x: T)
    ensures forall y :: y in Toggle(s, x) <==> (y != x && y in s) || (y == x && x !in s)
  {
    RemoveAllMembers(s, x);
  }

  /** Toggling an unselected value twice restores the list. */
  lemma ToggleTwiceAbsent<T>(s: seq<T>, x: T)
    requires x !in s
    ensures Toggle(Toggle(s, x), x) == s
  {
    assert x in s + [x];
    RemoveAllAppend(s, [x], x);
    RemoveAbsent(s, x);
    assert RemoveAll([x], x) == [];
    assert s + [] == s;
  }

  /** Toggling a selected value twice moves it, once, to the end. */
  lemma ToggleTwicePresent<T>(s: seq<T>, x: T)
    requires x in s
    ensures Toggle(Toggle(s, x), x) == RemoveAll(s, x) + [x]
  {
    RemoveAllMembers(s, x);
  }

  /** No value is selected twice. */
  predicate Distinct<T(==)>(s: seq<T>) {
    forall i, j :: 0 <= i < j < |s| ==> s[i] != s[j]
  }

  /** A list without repeats keeps that property under any toggle. */
  lemma ToggleKeepsDistinct<T>(s: seq<T>, x: T)
    requires Distinct(s)
    ensures Distinct(Toggle(s, x))
  {
    if x in s {
      RemoveKeepsDistinct(s, x);
    } else {
      var r := s + [x];
      forall i, j | 0 <= i < j < |r| ensures r[i] != r[j] {
        if j == |s| {
          assert r[i] == s[i];
        }
      }
    }
  }

  lemma {:induction false} RemoveKeepsDistinct<T>(s: seq<T>, x: T)
    requires Distinct(s)
    ensures Distinct(RemoveAll(s, x))
    decreases |s|
  {
    if s != [] {
      var t := s[1..];
      RemoveKeepsDistinct(t, x);
      RemoveAllMembers(t, x);
      if s[0] != x {
        var r := [s[0]] + RemoveAll(t, x);
        forall i, j | 0 <= i < j < |r| ensures r[i] != r[j] {
          if i == 0 {
            assert r[j] in RemoveAll(t, x);
            assert s[0] !in t by {
              forall k | 0 <= k < |t| ensures t[k] != s[0] {
                assert t[k] == s[k + 1];
              }
            }
          } else {
            assert r[i] == RemoveAll(t, x)[i - 1] && r[j] == RemoveAll(t, x)[j - 1];
          }
        }
      }
    }
  }
}
