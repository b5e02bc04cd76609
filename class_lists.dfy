/**
 * Ordered class lists (`DOMTokenList`) and the live `classList.forEach` that
 * the `onData` handler of app/assets/js/ws-connectivity.js runs over a list
 * while removing from it. The class names are any type with equality, and
 * `signal` is the test that picks the classes the loop removes, so the
 * reasoning here is about positions and never about the spelling of names.
 */
module ClassLists {

  /** `classList.remove(x)`: every occurrence of x goes, the rest keep their order. */
  function Remove<C(==,!new)>(classes: seq<C>, x: C): (r: seq<C>)
    ensures forall y :: y in r <==> y in classes && y != x
    ensures |r| <= |classes|
  {
    if classes == [] then []
    else if classes[0] == x then Remove(classes[1..], x)
    else [classes[0]] + Remove(classes[1..], x)
  }

  /** `classList.add(x)`: appended unless already present. */
  function Add<C(==,!new)>(classes: seq<C>, x: C): (r: seq<C>)
    ensures x in r && forall y :: y in r <==> y in classes || y == x
    ensures x in classes ==> r == classes
  {
    if x in classes then classes else classes + [x]
  }

  /**
   * The live `forEach` from index k, with the list's length `len` taken when
   * the loop started: an index past the current end is skipped; otherwise a
   * class passing `signal` is removed, which shifts the later classes down one
   * place, and the target is added.
   */
  function ForEachFrom<C(==,!new)>(classes: seq<C>, target: C, signal: C -> bool, k: nat, len: nat): seq<C>
    decreases len - k
  {
    if k >= len then classes
    else if k >= |classes| then ForEachFrom(classes, target, signal, k + 1, len)
    else
      var removed := if signal(classes[k]) then Remove(classes, classes[k]) else classes;
      ForEachFrom(Add(removed, target), target, signal, k + 1, len)
  }

  /** The update as written: nothing when the target is there, else the live loop over the whole list. */
  function Update<C(==,!new)>(classes: seq<C>, target: C, signal: C -> bool): seq<C>
  {
    if target in classes then classes else ForEachFrom(classes, target, signal, 0, |classes|)
  }

  /** The classes that do not pass `signal`, in order. */
  function WithoutSignal<C(==,!new)>(classes: seq<C>, signal: C -> bool): (r: seq<C>)
    ensures forall x :: x in r <==> x in classes && !signal(x)
  {
    if classes == [] then []
    else if signal(classes[0]) then WithoutSignal(classes[1..], signal)
    else [classes[0]] + WithoutSignal(classes[1..], signal)
  }

  /** The corrected update: every signal class removed, the target added once at the end. */
  function UpdateIntended<C(==,!new)>(classes: seq<C>, target: C, signal: C -> bool): seq<C>
  {
    if target in classes then classes else WithoutSignal(classes, signal) + [target]
  }

  /** At most one position holds a signal class. */
  predicate AtMostOneSignal<C>(classes: seq<C>, signal: C -> bool)
  {
    forall i, j :: 0 <= i < |classes| && 0 <= j < |classes| && signal(classes[i]) && signal(classes[j]) ==> i == j
  }

  /** Classes other than signal classes are never removed by the loop. */
  lemma {:induction false} ForEachKeepsOtherClasses<C(!new)>(classes: seq<C>, target: C, signal: C -> bool, k: nat, len: nat, x: C)
    requires x in classes && !signal(x)
    ensures x in ForEachFrom(classes, target, signal, k, len)
    decreases len - k
  {
    if k < len {
      if k >= |classes| {
        ForEachKeepsOtherClasses(classes, target, signal, k + 1, len, x);
      } else {
        var removed := if signal(classes[k]) then Remove(classes, classes[k]) else classes;
        ForEachKeepsOtherClasses(Add(removed, target), target, signal, k + 1, len, x);
      }
    }
  }

  /** The loop adds nothing but the target. */
  lemma {:induction false} ForEachAddsOnlyTarget<C(!new)>(classes: seq<C>, target: C, signal: C -> bool, k: nat, len: nat, x: C)
    requires x in ForEachFrom(classes, target, signal, k, len)
    ensures x in classes || x == target
    decreases len - k
  {
    if k < len {
      if k >= |classes| {
        ForEachAddsOnlyTarget(classes, target, signal, k + 1, len, x);
      } else {
        var removed := if signal(classes[k]) then Remove(classes, classes[k]) else classes;
        ForEachAddsOnlyTarget(Add(removed, target), target, signal, k + 1, len, x);
      }
    }
  }

  /** Once the loop has visited one class the target is present, and it stays present. */
  lemma {:induction false} ForEachKeepsTarget<C(!new)>(classes: seq<C>, target: C, signal: C -> bool, k: nat, len: nat)
    requires target in classes || (k < len && k < |classes|)
    ensures target in ForEachFrom(classes, target, signal, k, len)
    decreases len - k
  {
    if k < len {
      if k >= |classes| {
        ForEachKeepsTarget(classes, target, signal, k + 1, len);
      } else {
        var removed := if signal(classes[k]) then Remove(classes, classes[k]) else classes;
        ForEachKeepsTarget(Add(removed, target), target, signal, k + 1, len);
      }
    }
  }

  /**
   * The update as written keeps every other class and adds nothing but the
   * target. The target is there afterwards exactly when the list was not
   * empty: an empty class list never gets it.
   */
  lemma UpdateProperties<C(!new)>(classes: seq<C>, target: C, signal: C -> bool)
    ensures forall x :: x in classes && !signal(x) ==> x in Update(classes, target, signal)
    ensures forall x :: x in Update(classes, target, signal) ==> x in classes || x == target
    ensures target in Update(classes, target, signal) <==> classes != []
    ensures classes == [] ==> Update(classes, target, signal) == []
  {
    if target !in classes {
      forall x | x in classes && !signal(x)
        ensures x in Update(classes, target, signal)
      {
        ForEachKeepsOtherClasses(classes, target, signal, 0, |classes|, x);
      }
      forall x | x in Update(classes, target, signal)
        ensures x in classes || x == target
      {
        ForEachAddsOnlyTarget(classes, target, signal, 0, |classes|, x);
      }
      if classes != [] {
        ForEachKeepsTarget(classes, target, signal, 0, |classes|);
      }
    }
  }

  lemma {:induction false} WithoutSignalConcat<C(!new)>(a: seq<C>, b: seq<C>, signal: C -> bool)
    ensures WithoutSignal(a + b, signal) == WithoutSignal(a, signal) + WithoutSignal(b, signal)
  {
    if a != [] {
      assert (a + b)[1..] == a[1..] + b;
      WithoutSignalConcat(a[1..], b, signal);
    } else {
      assert a + b == b;
    }
  }

  lemma {:induction false} WithoutSignalNone<C(!new)>(a: seq<C>, signal: C -> bool)
    requires forall x :: x in a ==> !signal(x)
    ensures WithoutSignal(a, signal) == a
  {
    if a != [] {
      WithoutSignalNone(a[1..], signal);
    }
  }

  /**
   * The corrected update keeps the other classes in their order and, for a
   * target that is a signal class, leaves it the only signal class.
   */
  lemma UpdateIntendedProperties<C(!new)>(classes: seq<C>, target: C, signal: C -> bool)
    requires target !in classes && signal(target)
    ensures WithoutSignal(UpdateIntended(classes, target, signal), signal) == WithoutSignal(classes, signal)
    ensures forall x :: x in UpdateIntended(classes, target, signal) && signal(x) <==> x == target
  {
    WithoutSignalConcat(WithoutSignal(classes, signal), [target], signal);
    WithoutSignalNone(WithoutSignal(classes, signal), signal);
  }

  lemma {:induction false} RemoveAbsent<C(!new)>(a: seq<C>, x: C)
    requires x !in a
    ensures Remove(a, x) == a
  {
    if a != [] {
      RemoveAbsent(a[1..], x);
    }
  }

  /** Removing a class that occurs once, at p, is cutting position p. */
  lemma {:induction false} RemoveAt<C(!new)>(a: seq<C>, p: nat)
    requires p < |a| && forall j :: 0 <= j < |a| && j != p ==> a[j] != a[p]
    ensures Remove(a, a[p]) == a[..p] + a[p + 1..]
  {
    if p == 0 {
      assert a[0] !in a[1..];
      RemoveAbsent(a[1..], a[0]);
    } else {
      assert a[1..][p - 1] == a[p];
      RemoveAt(a[1..], p - 1);
      assert a[..p] == [a[0]] + a[1..][..p - 1];
      assert a[p + 1..] == a[1..][p..];
    }
  }

  /** Filtering out the one signal class, at p, is cutting position p. */
  lemma WithoutSignalAt<C(!new)>(classes: seq<C>, signal: C -> bool, p: nat)
    requires p < |classes| && signal(classes[p]) && AtMostOneSignal(classes, signal)
    ensures WithoutSignal(classes, signal) == classes[..p] + classes[p + 1..]
  {
    assert classes == classes[..p] + ([classes[p]] + classes[p + 1..]);
    WithoutSignalConcat(classes[..p], [classes[p]] + classes[p + 1..], signal);
    WithoutSignalConcat([classes[p]], classes[p + 1..], signal);
    WithoutSignalNone(classes[..p], signal);
    WithoutSignalNone(classes[p + 1..], signal);
  }

  /**
   * Loop steps k .. m-1 change nothing when the list ends with its only copy
   * of the target and every visited class is not a signal class or is that
   * last target (which is removed and added straight back).
   */
  lemma {:induction false} ForEachSkips<C(!new)>(s: seq<C>, target: C, signal: C -> bool, k: nat, m: nat, len: nat)
    requires k <= m <= len <= |s| && |s| > 0 && s[|s| - 1] == target && target !in s[..|s| - 1]
    requires forall j :: k <= j < m ==> !signal(s[j]) || j == |s| - 1
    ensures ForEachFrom(s, target, signal, k, len) == ForEachFrom(s, target, signal, m, len)
    decreases m - k
  {
    if k < m {
      if signal(s[k]) {
        assert k == |s| - 1;
        RemoveAt(s, k);
        assert s[..k] + s[k + 1..] + [target] == s;
      }
      ForEachSkips(s, target, signal, k + 1, m, len);
    }
  }

  /** One step at a class that is not a signal class, with the target absent: the target is appended. */
  lemma ForEachAppendStep<C(!new)>(classes: seq<C>, target: C, signal: C -> bool, k: nat, len: nat)
    requires k < len && k < |classes| && !signal(classes[k]) && target !in classes
    ensures ForEachFrom(classes, target, signal, k, len) == ForEachFrom(classes + [target], target, signal, k + 1, len)
  {
  }

  /** One step that removes a signal class occurring only at k, then appends the absent target. */
  lemma ForEachRemoveStep<C(!new)>(classes: seq<C>, target: C, signal: C -> bool, k: nat, len: nat)
    requires k < len && k < |classes| && signal(classes[k]) && target !in classes
    requires forall j :: 0 <= j < |classes| && j != k ==> classes[j] != classes[k]
    ensures ForEachFrom(classes, target, signal, k, len)
         == ForEachFrom(classes[..k] + classes[k + 1..] + [target], target, signal, k + 1, len)
  {
    RemoveAt(classes, k);
    var cut := classes[..k] + classes[k + 1..];
    assert target !in cut;
    assert Add(cut, target) == cut + [target];
  }

  /** One step that removes a signal class occurring only at k, the target being present already. */
  lemma ForEachRemoveStepKeepsTarget<C(!new)>(s: seq<C>, target: C, signal: C -> bool, k: nat, len: nat)
    requires k < len && k < |s| && signal(s[k]) && s[k] != target && target in s
    requires forall j :: 0 <= j < |s| && j != k ==> s[j] != s[k]
    ensures ForEachFrom(s, target, signal, k, len) == ForEachFrom(s[..k] + s[k + 1..], target, signal, k + 1, len)
  {
    RemoveAt(s, k);
    var cut := s[..k] + s[k + 1..];
    assert target in cut;
  }

  /** Without a signal class, the first step appends the target and the rest changes nothing. */
  lemma NoSignalUpdate<C(!new)>(classes: seq<C>, target: C, signal: C -> bool)
    requires classes != [] && target !in classes && forall x :: x in classes ==> !signal(x)
    ensures Update(classes, target, signal) == UpdateIntended(classes, target, signal)
  {
    var len := |classes|;
    var s := classes + [target];
    assert s[..|s| - 1] == classes;
    ForEachAppendStep(classes, target, signal, 0, len);
    ForEachSkips(s, target, signal, 1, len, len);
    WithoutSignalNone(classes, signal);
  }

  /** Once the signal class at p is gone, the other classes and then the target, the loop changes nothing. */
  lemma AfterRemovalSkips<C(!new)>(classes: seq<C>, target: C, signal: C -> bool, p: nat)
    requires p < |classes| && AtMostOneSignal(classes, signal) && signal(classes[p]) && target !in classes
    ensures ForEachFrom(classes[..p] + classes[p + 1..] + [target], target, signal, p + 1, |classes|)
         == classes[..p] + classes[p + 1..] + [target]
  {
    var len := |classes|;
    var cut := classes[..p] + classes[p + 1..];
    var s2 := cut + [target];
    assert s2[..|s2| - 1] == cut;
    assert target !in cut;
    assert forall j :: p <= j < len - 1 ==> s2[j] == classes[j + 1];
    ForEachSkips(s2, target, signal, p + 1, len, len);
  }

  /** The one signal class is the first class. */
  lemma SignalFirstUpdate<C(!new)>(classes: seq<C>, target: C, signal: C -> bool)
    requires |classes| > 0 && signal(classes[0]) && AtMostOneSignal(classes, signal) && target !in classes
    ensures Update(classes, target, signal) == UpdateIntended(classes, target, signal)
  {
    var len, p := |classes|, 0;
    var rest := classes[..p] + classes[p + 1..] + [target];
    assert ForEachFrom(classes, target, signal, p, len) == ForEachFrom(rest, target, signal, p + 1, len) by {
      ForEachRemoveStep(classes, target, signal, p, len);
    }
    assert ForEachFrom(rest, target, signal, p + 1, len) == rest by {
      AfterRemovalSkips(classes, target, signal, p);
    }
    assert WithoutSignal(classes, signal) + [target] == rest by {
      WithoutSignalAt(classes, signal, p);
    }
  }

  /** Before reaching the signal class at p > 0, the loop only appends the target. */
  lemma StepsBeforeSignal<C(!new)>(classes: seq<C>, target: C, signal: C -> bool, p: nat)
    requires 0 < p < |classes| && AtMostOneSignal(classes, signal) && signal(classes[p]) && target !in classes
    ensures ForEachFrom(classes, target, signal, 0, |classes|)
         == ForEachFrom(classes + [target], target, signal, p, |classes|)
  {
    var s1 := classes + [target];
    assert ForEachFrom(classes, target, signal, 0, |classes|) == ForEachFrom(s1, target, signal, 1, |classes|) by {
      assert !signal(classes[0]);
      ForEachAppendStep(classes, target, signal, 0, |classes|);
    }
    assert ForEachFrom(s1, target, signal, 1, |classes|) == ForEachFrom(s1, target, signal, p, |classes|) by {
      assert s1[..|s1| - 1] == classes;
      assert forall j :: 1 <= j < p ==> s1[j] == classes[j];
      ForEachSkips(s1, target, signal, 1, p, |classes|);
    }
  }

  /** At the signal class p > 0 the loop removes it, and from there on changes nothing. */
  lemma StepsFromSignal<C(!new)>(classes: seq<C>, target: C, signal: C -> bool, p: nat)
    requires 0 < p < |classes| && AtMostOneSignal(classes, signal) && signal(classes[p]) && target !in classes
    ensures ForEachFrom(classes + [target], target, signal, p, |classes|) == classes[..p] + classes[p + 1..] + [target]
  {
    var s1 := classes + [target];
    var rest := classes[..p] + classes[p + 1..] + [target];
    assert s1[..p] + s1[p + 1..] == rest by {
      assert s1[..p] == classes[..p];
      assert s1[p + 1..] == classes[p + 1..] + [target];
    }
    assert ForEachFrom(s1, target, signal, p, |classes|) == ForEachFrom(rest, target, signal, p + 1, |classes|) by {
      forall j | 0 <= j < |s1| && j != p
        ensures s1[j] != s1[p]
      {
        if j < |classes| {
          assert s1[j] == classes[j];
        }
      }
      ForEachRemoveStepKeepsTarget(s1, target, signal, p, |classes|);
    }
    assert ForEachFrom(rest, target, signal, p + 1, |classes|) == rest by {
      AfterRemovalSkips(classes, target, signal, p);
    }
  }

  /** The one signal class sits at p > 0. */
  lemma SignalLaterUpdate<C(!new)>(classes: seq<C>, target: C, signal: C -> bool, p: nat)
    requires 0 < p < |classes| && signal(classes[p]) && AtMostOneSignal(classes, signal) && target !in classes
    ensures Update(classes, target, signal) == UpdateIntended(classes, target, signal)
  {
    var rest := classes[..p] + classes[p + 1..] + [target];
    assert ForEachFrom(classes, target, signal, 0, |classes|) == rest by {
      StepsBeforeSignal(classes, target, signal, p);
      StepsFromSignal(classes, target, signal, p);
    }
    assert WithoutSignal(classes, signal) + [target] == rest by {
      WithoutSignalAt(classes, signal, p);
    }
  }

  /**
   * With at most one signal class on a non-empty list the live loop gives the
   * corrected result: the skipped index only matters from two signal classes on.
   */
  lemma UpdateAgreesWithOneSignal<C(!new)>(classes: seq<C>, target: C, signal: C -> bool)
    requires classes != [] && AtMostOneSignal(classes, signal)
    ensures Update(classes, target, signal) == UpdateIntended(classes, target, signal)
  {
    if target !in classes {
      if p :| 0 <= p < |classes| && signal(classes[p]) {
        if p == 0 {
          SignalFirstUpdate(classes, target, signal);
        } else {
          SignalLaterUpdate(classes, target, signal, p);
        }
      } else {
        NoSignalUpdate(classes, target, signal);
      }
    }
  }

  /**
   * Where the live loop goes wrong: with two signal classes after a first
   * class, removing the first signal class shifts the second into the index
   * already visited, so it survives beside the target.
   */
  lemma TwoSignalsOneSurvives<C(!new)>(a: C, f1: C, f2: C, t: C, signal: C -> bool)
    requires !signal(a) && signal(f1) && signal(f2)
    requires a != f1 && a != f2 && a != t && f1 != f2 && f1 != t && f2 != t
    ensures Update([a, f1, f2], t, signal) == [a, f2, t]
  {
    var c := [a, f1, f2];
    var s2 := [a, f2, t];
    assert Update(c, t, signal) == ForEachFrom(s2, t, signal, 2, 3) by {
      TwoSignalsFirstSteps(a, f1, f2, t, signal);
    }
    assert ForEachFrom(s2, t, signal, 2, 3) == s2 by {
      assert s2[..2] == [a, f2];
      ForEachSkips(s2, t, signal, 2, 3, 3);
    }
  }

  /** The first two steps of the loop on the list of `TwoSignalsOneSurvives`: append the target, drop the first signal class. */
  lemma TwoSignalsFirstSteps<C(!new)>(a: C, f1: C, f2: C, t: C, signal: C -> bool)
    requires !signal(a) && signal(f1) && signal(f2)
    requires a != f1 && a != f2 && a != t && f1 != f2 && f1 != t && f2 != t
    ensures Update([a, f1, f2], t, signal) == ForEachFrom([a, f2, t], t, signal, 2, 3)
  {
    var c := [a, f1, f2];
    var s1 := c + [t];
    assert Update(c, t, signal) == ForEachFrom(s1, t, signal, 1, 3) by {
      assert t !in c;
      ForEachAppendStep(c, t, signal, 0, 3);
    }
    assert ForEachFrom(s1, t, signal, 1, 3) == ForEachFrom([a, f2, t], t, signal, 2, 3) by {
      assert s1 == [a, f1, f2, t];
      assert forall j :: 0 <= j < |s1| && j != 1 ==> s1[j] != s1[1];
      ForEachRemoveStepKeepsTarget(s1, t, signal, 1, 3);
      assert s1[..1] + s1[2..] == [a, f2, t];
    }
  }

  /** The corrected update of the same list keeps neither old signal class. */
  lemma TwoSignalsNoneSurvives<C(!new)>(a: C, f1: C, f2: C, t: C, signal: C -> bool)
    requires !signal(a) && signal(f1) && signal(f2) && a != t && f1 != t && f2 != t
    ensures UpdateIntended([a, f1, f2], t, signal) == [a, t]
  {
    var c := [a, f1, f2];
    assert c[1..] == [f1, f2] && c[1..][1..] == [f2];
    assert WithoutSignal([f2], signal) == [];
    assert WithoutSignal(c, signal) == [a];
  }
}
