/** The ordering helper of the test suite, tests/utils.py: whether `members`
    occur in `container` as one contiguous run, starting at the first
    occurrence of the first member. The run is checked member by member
    against a bound; the bound as written compares with `>`, which lets the
    index reach the container's length, where indexing raises IndexError
    instead of answering false. */
module TestUtils {
  import opened Common

  /** The members occupy the container from position f on, contiguously. */
  predicate MatchesAt<T(==)>(members: seq<T>, container: seq<T>, f: nat) {
    f + |members| <= |container| && container[f..f + |members|] == members
  }

  /** The members run past the container's end from position f, and the
      part of them still inside the container matches it. */
  predicate OverrunsAt<T(==)>(members: seq<T>, container: seq<T>, f: nat) {
    f <= |container| < f + |members| && container[f..] == members[..|container| - f]
  }

  /** The loop over `members[1:]` from position i on, with the first member
      found at f: `Ok(false)` when the bound fires or a member differs,
      `Err(IndexError)` when the index reaches the end of the container
      before the bound fires. `inclusive` selects the bound `f + i >=
      len(container)`; otherwise it is `f + i > len(container)`. */
  function Scan<T(==)>(members: seq<T>, container: seq<T>, f: nat, i: nat, inclusive: bool): Result<bool>
    decreases |members| - i
  {
    if i >= |members| then Ok(true)
    else if (if inclusive then f + i >= |container| else f + i > |container|) then Ok(false)
    else if f + i >= |container| then Err(IndexError)
    else if container[f + i] != members[i] then Ok(false)
    else Scan(members, container, f, i + 1, inclusive)
  }

  /** `is_contained_in_order(members, container)`: `members[0]` raises
      IndexError on no members; a first member missing from the container
      (the ValueError of `container.index`) answers false; otherwise the
      loop decides. */
  function ContainedInOrder<T(==)>(members: seq<T>, container: seq<T>, inclusive: bool): Result<bool> {
    if members == [] then Err(IndexError)
    else
      match FirstIndex(container, members[0])
      case None => Ok(false)
      case Some(f) => Scan(members, container, f, 1, inclusive)
  }

  /** From position i on, the loop answers true exactly when the rest of the
      members fit and match, and raises (only with the `>` bound, and only
      IndexError) exactly when they run past the end matching all the way. */
  lemma {:induction false} ScanOutcome<T>(members: seq<T>, container: seq<T>, f: nat, i: nat, inclusive: bool)
    requires 1 <= i <= |members| && f + i <= |container|
    ensures Scan(members, container, f, i, inclusive) == Ok(true) <==>
      f + |members| <= |container| && forall j :: i <= j < |members| ==> container[f + j] == members[j]
    ensures Scan(members, container, f, i, inclusive).Err? <==>
      !inclusive && f + |members| > |container| && forall j :: i <= j < |container| - f ==> container[f + j] == members[j]
    ensures Scan(members, container, f, i, inclusive).Err? ==> Scan(members, container, f, i, inclusive) == Err(IndexError)
    decreases |members| - i
  {
    if i < |members| && f + i < |container| && container[f + i] == members[i] {
      ScanOutcome(members, container, f, i + 1, inclusive);
    }
  }

  /** The loop's verdicts in terms of the whole run starting at f. */
  lemma RunAt<T>(members: seq<T>, container: seq<T>, f: nat)
    requires members != [] && f < |container| && container[f] == members[0]
    ensures MatchesAt(members, container, f) <==>
      f + |members| <= |container| && forall j :: 1 <= j < |members| ==> container[f + j] == members[j]
    ensures OverrunsAt(members, container, f) <==>
      f + |members| > |container| && forall j :: 1 <= j < |container| - f ==> container[f + j] == members[j]
  {
    if f + |members| <= |container| {
      var run := container[f..f + |members|];
      assert forall j :: 0 <= j < |members| ==> run[j] == container[f + j];
    } else {
      var run, head := container[f..], members[..|container| - f];
      assert forall j :: 0 <= j < |container| - f ==> run[j] == container[f + j] && head[j] == members[j];
    }
  }

  /** As written, the helper answers true exactly when the members form a
      contiguous run from the first occurrence of the first member; it
      raises IndexError exactly when there are no members or when that run
      matches up to the container's end but has members left over; in every
      other case it answers false. */
  lemma AsWrittenOutcome<T>(members: seq<T>, container: seq<T>)
    ensures var found := if members == [] then None else FirstIndex(container, members[0]);
      && (ContainedInOrder(members, container, false) == Ok(true) <==>
            found.Some? && MatchesAt(members, container, found.value))
      && (ContainedInOrder(members, container, false).Err? <==>
            members == [] || (found.Some? && OverrunsAt(members, container, found.value)))
      && (ContainedInOrder(members, container, false).Err? ==>
            ContainedInOrder(members, container, false) == Err(IndexError))
  {
    if members != [] && FirstIndex(container, members[0]).Some? {
      var f := FirstIndex(container, members[0]).value;
      ScanOutcome(members, container, f, 1, false);
      RunAt(members, container, f);
    }
  }

  /** With the bound `>=`, the helper never raises on members, and answers
      true exactly when they form a contiguous run from the first occurrence
      of the first member. */
  lemma InOrderOutcome<T>(members: seq<T>, container: seq<T>)
    ensures members == [] ==> ContainedInOrder(members, container, true) == Err(IndexError)
    ensures members != [] ==>
      var found := FirstIndex(container, members[0]);
      ContainedInOrder(members, container, true) == Ok(found.Some? && MatchesAt(members, container, found.value))
  {
    if members != [] && FirstIndex(container, members[0]).Some? {
      var f := FirstIndex(container, members[0]).value;
      ScanOutcome(members, container, f, 1, true);
      RunAt(members, container, f);
      var r := Scan(members, container, f, 1, true);
      assert r.Ok?;
      assert r.value <==> MatchesAt(members, container, f);
      assert ContainedInOrder(members, container, true) == r;
    }
  }

  /** The corrected bound changes only the raising case, which becomes a
      false answer; every answer the helper gives as written is kept. */
  lemma BoundFixOnlyRemovesRaise<T>(members: seq<T>, container: seq<T>)
    ensures ContainedInOrder(members, container, false).Ok? ==>
      ContainedInOrder(members, container, true) == ContainedInOrder(members, container, false)
    ensures members != [] && ContainedInOrder(members, container, false).Err? ==>
      ContainedInOrder(members, container, true) == Ok(false)
  {
    AsWrittenOutcome(members, container);
    InOrderOutcome(members, container);
    if members != [] {
      var found := FirstIndex(container, members[0]);
      var asWritten := ContainedInOrder(members, container, false);
      if found.Some? && OverrunsAt(members, container, found.value) {
        assert !MatchesAt(members, container, found.value);
      } else {
        assert !asWritten.Err?;
        assert asWritten.value <==> found.Some? && MatchesAt(members, container, found.value);
      }
    }
  }

  /** Members [1, 2] looked for in the container [1]: as written the helper
      raises IndexError where false is meant. */
  lemma AsWrittenRaisesAtEnd()
    ensures ContainedInOrder([1, 2], [1], false) == Err(IndexError)
    ensures ContainedInOrder([1, 2], [1], true) == Ok(false)
  {
    assert FirstIndex([1], 1) == Some(0);
  }

  /** `is_contained_in_order` as written, with the bound `>`. */
  method IsContainedInOrderAsWritten<T(==)>(members: seq<T>, container: seq<T>) returns (r: Result<bool>)
    ensures r == ContainedInOrder(members, container, false)
  {
    if |members| == 0 {
      return Err(IndexError);
    }
    var first := FirstIndex(container, members[0]);
    if first.None? {
      return Ok(false);
    }
    var f := first.value;
    var n := |container|;
    var index := 1;
    while index < |members|
      invariant 1 <= index <= |members|
      invariant Scan(members, container, f, 1, false) == Scan(members, container, f, index, false)
    {
      if f + index > n {
        return Ok(false);
      }
      if f + index >= n {
        return Err(IndexError);
      }
      if container[f + index] != members[index] {
        return Ok(false);
      }
      index := index + 1;
    }
    return Ok(true);
  }

  /** `is_contained_in_order` with the bound `>=`: a contiguous run from the
      first occurrence of the first member, and no IndexError once there is
      a first member. */
  method IsContainedInOrder<T(==)>(members: seq<T>, container: seq<T>) returns (r: Result<bool>)
    ensures r == ContainedInOrder(members, container, true)
    ensures members != [] ==> r.Ok?
    ensures r == Ok(true) <==>
      members != [] && FirstIndex(container, members[0]).Some?
      && MatchesAt(members, container, FirstIndex(container, members[0]).value)
  {
    InOrderOutcome(members, container);
    if |members| == 0 {
      return Err(IndexError);
    }
    var first := FirstIndex(container, members[0]);
    if first.None? {
      return Ok(false);
    }
    var f := first.value;
    var n := |container|;
    var index := 1;
    while index < |members|
      invariant 1 <= index <= |members|
      invariant Scan(members, container, f, 1, true) == Scan(members, container, f, index, true)
    {
      if f + index >= n {
        return Ok(false);
      }
      if container[f + index] != members[index] {
        return Ok(false);
      }
      index := index + 1;
    }
    return Ok(true);
  }
}
