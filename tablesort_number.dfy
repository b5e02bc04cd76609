/**
 * The cell cleaner of the numeric sort column (app/assets/js/tablesort.number.js):
 * `cleanNumber` deletes every character outside the class `[-?0-9.]`.
 */
module TablesortNumber {

  /** The characters the pattern `[^\-?0-9.]` does not match, and so keeps. */
  predicate IsKept(c: char)
  {
    c == '-' || c == '?' || c == '.' || ('0' <= c <= '9')
  }

  /** `i.replace(/[^\-?0-9.]/g, '')`: the subsequence of kept characters. */
  function CleanNumber(s: string): (r: string)
    ensures |r| <= |s|
    ensures forall k :: 0 <= k < |r| ==> IsKept(r[k])
    ensures (forall k :: 0 <= k < |s| ==> IsKept(s[k])) ==> r == s
  {
    if s == [] then []
    else if IsKept(s[0]) then [s[0]] + CleanNumber(s[1..])
    else CleanNumber(s[1..])
  }

  /** Cleaning distributes over concatenation, so nothing is reordered. */
  lemma {:induction false} CleanNumberAppend(a: string, b: string)
    ensures CleanNumber(a + b) == CleanNumber(a) + CleanNumber(b)
    decreases |a|
  {
    if a != [] {
      assert (a + b)[1..] == a[1..] + b;
      CleanNumberAppend(a[1..], b);
    } else {
      assert a + b == b;
    }
  }

  /** A single character survives exactly when it is in the kept class. */
  lemma CleanNumberOne(c: char)
    ensures CleanNumber([c]) == if IsKept(c) then [c] else []
  {
    assert [c][1..] == [];
  }

  /** Every kept character of the input appears in the output, as often and in the same order. */
  lemma {:induction false} CleanNumberKeepsCount(s: string, c: char)
    requires IsKept(c)
    ensures multiset(CleanNumber(s))[c] == multiset(s)[c]
    decreases |s|
  {
    if s != [] {
      CleanNumberKeepsCount(s[1..], c);
      assert s == [s[0]] + s[1..];
    }
  }

  /** Cleaning a cleaned cell changes nothing. */
  lemma CleanNumberIdempotent(s: string)
    ensures CleanNumber(CleanNumber(s)) == CleanNumber(s)
  {
  }

  /** Empty input, or input with no kept character, cleans to the empty string. */
  lemma {:induction false} CleanNumberEmpty(s: string)
    requires forall k :: 0 <= k < |s| ==> !IsKept(s[k])
    ensures CleanNumber(s) == ""
    decreases |s|
  {
    if s != [] {
      CleanNumberEmpty(s[1..]);
    }
  }
}
