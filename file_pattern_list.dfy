/**
 * Editing a list of file patterns (the scan excludes or includes): adding a pattern that is not
 * yet listed, removing a pattern, and replacing one pattern by another in place. Each edit yields
 * the new list the component hands to its change callback.
 */
module FilePatternList {
  import opened Wrappers

  /** isPatternUnique: the pattern is not listed yet. */
  predicate IsPatternUnique(value: seq<string>, pattern: string) {
    pattern !in value
  }

  /**
   * addPattern: `None` when the input is already listed (the callback is not called), otherwise
   * the list with the input appended.
   */
  function AddPattern(value: seq<string>, input: string): (r: Option<seq<string>>)
    ensures r.None? <==> !IsPatternUnique(value, input)
    ensures r.Some? ==> |r.value| == |value| + 1 && r.value[..|value|] == value && r.value[|value|] == input
  {
    if input in value then None else Some(value + [input])
  }

  /** Adding keeps a list free of duplicates, whether or not the callback is called. */
  lemma AddPatternKeepsDistinct(value: seq<string>, input: string)
    requires Distinct(value)
    ensures Distinct(AddPattern(value, input).GetOr(value))
    ensures input in AddPattern(value, input).GetOr(value)
  {
    if input !in value {
      var r := value + [input];
      forall i, j | 0 <= i < j < |r|
        ensures r[i] != r[j]
      {
        if j == |value| {
          assert r[i] == value[i];
        }
      }
    }
  }

  /** removePattern: the list without any occurrence of the pattern, the rest in its order. */
  function RemovePattern(value: seq<string>, pattern: string): (r: seq<string>)
    ensures multiset(r) == multiset(value)[pattern := 0]
    ensures pattern !in r
    ensures pattern !in value ==> r == value
  {
    if value == [] then []
    else
      var rest := RemovePattern(value[1..], pattern);
      assert value == [value[0]] + value[1..];
      if value[0] == pattern then rest else [value[0]] + rest
  }

  /** Removing distributes over concatenation: what is kept stays in its order. */
  lemma {:induction false} RemovePatternConcat(a: seq<string>, b: seq<string>, pattern: string)
    ensures RemovePattern(a + b, pattern) == RemovePattern(a, pattern) + RemovePattern(b, pattern)
  {
    if a != [] {
      assert (a + b)[1..] == a[1..] + b;
      RemovePatternConcat(a[1..], b, pattern);
    } else {
      assert a + b == b;
    }
  }

  /** Removing a pattern just added gives back the list it was added to. */
  lemma RemoveUndoesAdd(value: seq<string>, input: string)
    requires IsPatternUnique(value, input)
    ensures RemovePattern(AddPattern(value, input).value, input) == value
  {
    RemovePatternConcat(value, [input], input);
    assert RemovePattern([input], input) == [];
  }

  /** Array.prototype.slice(0, end), where a negative end counts from the back. */
  function SliceTo(s: seq<string>, end: int): (r: seq<string>)
    ensures r <= s
  {
    if end < 0 then (if |s| + end < 0 then [] else s[..|s| + end])
    else if end > |s| then s
    else s[..end]
  }

  /** Array.prototype.slice(start) for a start that is not negative. */
  function SliceFrom(s: seq<string>, start: nat): (r: seq<string>)
    ensures |r| == if start <= |s| then |s| - start else 0
  {
    if start > |s| then [] else s[start..]
  }

  /**
   * updatePattern: the list with the first occurrence of the old pattern replaced by the new one.
   * When the old pattern is not listed, indexOf gives -1 and the slices give all but the last
   * pattern, the new one, then the whole list.
   */
  function UpdatePattern(value: seq<string>, oldPattern: string, newPattern: string): (r: seq<string>)
    ensures oldPattern in value ==> r == value[IndexOf(value, oldPattern) := newPattern]
    ensures oldPattern !in value ==>
      r == (if value == [] then [] else value[..|value| - 1]) + [newPattern] + value
  {
    var index := IndexOf(value, oldPattern);
    var r := SliceTo(value, index) + [newPattern] + SliceFrom(value, index + 1);
    assert index >= 0 ==> r == value[index := newPattern] by {
      if index >= 0 {
        assert SliceTo(value, index) == value[..index];
        assert SliceFrom(value, index + 1) == value[index + 1..];
        assert |r| == |value|;
        assert forall j :: 0 <= j < |r| ==> r[j] == value[index := newPattern][j];
      }
    }
    r
  }

  /** Replacing one pattern of a list without duplicates by an unlisted one keeps it without duplicates. */
  lemma ReplaceKeepsDistinct(value: seq<string>, i: int, newPattern: string)
    requires Distinct(value) && 0 <= i < |value| && newPattern !in value
    ensures Distinct(value[i := newPattern])
  {
    var r := value[i := newPattern];
    forall j, k | 0 <= j < k < |r|
      ensures r[j] != r[k]
    {
      if j != i && k != i {
        assert r[j] == value[j] && r[k] == value[k];
      }
    }
  }

  /**
   * Replacing a listed pattern by one that passes isPatternUnique keeps the list free of
   * duplicates, and replacing it back restores the list.
   */
  lemma UpdatePatternRoundTrip(value: seq<string>, oldPattern: string, newPattern: string)
    requires Distinct(value)
    requires oldPattern in value
    requires IsPatternUnique(value, newPattern)
    ensures Distinct(UpdatePattern(value, oldPattern, newPattern))
    ensures UpdatePattern(UpdatePattern(value, oldPattern, newPattern), newPattern, oldPattern) == value
  {
    var i := IndexOf(value, oldPattern);
    var r := value[i := newPattern];
    ReplaceKeepsDistinct(value, i, newPattern);
    assert r[i] == newPattern;
    assert IndexOf(r, newPattern) == i;
    assert r[i := oldPattern] == value;
  }
}
