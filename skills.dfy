/**
 * The skill aggregate of `getAllSkills`: every item's skills, flattened in
 * scan order, with repeats dropped the way a JavaScript `Set` drops them
 * (the first occurrence stays, in insertion order).
 */
module Skills {
  import opened PortfolioModel

  /** The skills of the items, one item after another. */
  function Flatten(items: seq<Portfolio>): seq<string>
    decreases |items|
  {
    if items == [] then []
    else Flatten(items[..|items| - 1]) + SkillsOf(items[|items| - 1])
  }

  /** The contents of a `Set` after adding the elements of `s` in order. */
  function Dedup(s: seq<string>): seq<string>
    decreases |s|
  {
    if s == [] then []
    else
      var seen := Dedup(s[..|s| - 1]);
      if s[|s| - 1] in seen then seen else seen + [s[|s| - 1]]
  }

  predicate NoDuplicates(s: seq<string>) {
    forall i, j | 0 <= i < j < |s| :: s[i] != s[j]
  }

  /** The index of the first occurrence of `x` in `s`. */
  function FirstIndex(s: seq<string>, x: string): (k: nat)
    requires x in s
    ensures k < |s| && s[k] == x && x !in s[..k]
  {
    if s[0] == x then 0
    else
      assert x in s[1..];
      var k := 1 + FirstIndex(s[1..], x);
      assert s[..k] == [s[0]] + s[1..][..k - 1];
      k
  }

  /** `r` lists elements of `s` in the order of their first occurrences in `s`. */
  ghost predicate FirstOccurrenceOrder(r: seq<string>, s: seq<string>) {
    forall i, j | 0 <= i < j < |r| :: r[i] in s && r[j] in s && FirstIndex(s, r[i]) < FirstIndex(s, r[j])
  }

  /** The aggregate holds exactly the elements of the input. */
  lemma {:induction false} DedupElements(s: seq<string>)
    ensures forall x :: x in Dedup(s) <==> x in s
    decreases |s|
  {
    if s != [] {
      var init := s[..|s| - 1];
      assert s == init + [s[|s| - 1]];
      DedupElements(init);
    }
  }

  /** The aggregate holds no element twice. */
  lemma {:induction false} DedupNoDuplicates(s: seq<string>)
    ensures NoDuplicates(Dedup(s))
    decreases |s|
  {
    if s != [] {
      DedupNoDuplicates(s[..|s| - 1]);
    }
  }

  /** Appending an element leaves the first occurrences of the old elements where they were. */
  lemma {:induction false} FirstIndexAppend(s: seq<string>, x: string, y: string)
    requires y in s + [x]
    ensures y in s ==> FirstIndex(s + [x], y) == FirstIndex(s, y)
    ensures y !in s ==> FirstIndex(s + [x], y) == |s|
    decreases |s|
  {
    if s != [] && s[0] != y {
      assert (s + [x])[1..] == s[1..] + [x];
      FirstIndexAppend(s[1..], x, y);
    }
  }

  /** The aggregate lists the elements in the order in which they first occur in the input. */
  lemma {:induction false} DedupFirstOccurrence(s: seq<string>)
    ensures FirstOccurrenceOrder(Dedup(s), s)
    decreases |s|
  {
    if s != [] {
      var init, x := s[..|s| - 1], s[|s| - 1];
      assert s == init + [x];
      DedupFirstOccurrence(init);
      DedupElements(init);
      var seen := Dedup(init);
      forall i, j | 0 <= i < j < |Dedup(s)|
        ensures Dedup(s)[i] in s && Dedup(s)[j] in s && FirstIndex(s, Dedup(s)[i]) < FirstIndex(s, Dedup(s)[j])
      {
        var r := Dedup(s);
        assert r[i] in seen;
        FirstIndexAppend(init, x, r[i]);
        if j < |seen| {
          assert r[j] == seen[j];
          FirstIndexAppend(init, x, r[j]);
        } else {
          assert r[j] == x && x !in init;
          FirstIndexAppend(init, x, x);
          assert FirstIndex(init, r[i]) < |init|;
        }
      }
    }
  }

  lemma {:induction false} FlattenAppend(a: seq<Portfolio>, b: seq<Portfolio>)
    ensures Flatten(a + b) == Flatten(a) + Flatten(b)
    decreases |b|
  {
    if b == [] {
      assert a + b == a;
    } else {
      var init := b[..|b| - 1];
      assert (a + b)[..|a + b| - 1] == a + init;
      FlattenAppend(a, init);
    }
  }

  /** A skill is in the flattening exactly when some item has it. */
  lemma {:induction false} FlattenContains(items: seq<Portfolio>, x: string)
    ensures x in Flatten(items) <==> exists i :: 0 <= i < |items| && x in SkillsOf(items[i])
    decreases |items|
  {
    if items != [] {
      var init := items[..|items| - 1];
      FlattenContains(init, x);
      if exists i :: 0 <= i < |init| && x in SkillsOf(init[i]) {
        var i :| 0 <= i < |init| && x in SkillsOf(init[i]);
        assert items[i] == init[i];
      }
      if exists i :: 0 <= i < |items| && x in SkillsOf(items[i]) {
        var i :| 0 <= i < |items| && x in SkillsOf(items[i]);
        if i < |init| {
          assert items[i] == init[i];
        }
      }
    }
  }

  /** An item without skills adds nothing to the flattening. */
  lemma FlattenSkip(before: seq<Portfolio>, item: Portfolio, after: seq<Portfolio>)
    requires item.skills.None?
    ensures Flatten(before + [item] + after) == Flatten(before + after)
  {
    assert Flatten([item]) == [] by {
      assert [item][..0] == [];
    }
    FlattenAppend(before + [item], after);
    FlattenAppend(before, [item]);
    FlattenAppend(before, after);
  }

  /** An item without skills contributes nothing: leaving it out changes neither the flattening nor the aggregate. */
  lemma MissingSkillsContributeNothing(items: seq<Portfolio>, k: nat)
    requires k < |items| && items[k].skills.None?
    ensures Flatten(items) == Flatten(items[..k] + items[k + 1..])
    ensures Dedup(Flatten(items)) == Dedup(Flatten(items[..k] + items[k + 1..]))
  {
    SplitAt(items, k);
    FlattenSkip(items[..k], items[k], items[k + 1..]);
  }

  /** A sequence is its prefix, the element at `k` and its suffix. */
  lemma SplitAt<T>(s: seq<T>, k: nat)
    requires k < |s|
    ensures s == s[..k] + [s[k]] + s[k + 1..]
  {
  }
}
