/** find_first: a linear search that returns the first element satisfying
    a predicate, stopping at it. */
module Search {
  import opened Values

  datatype Option<+T> = None | Some(value: T)

  /** What `find_first` needs of its predicate: it can be applied to each
      element that is reached, that is, to every element up to and including
      the first match. Elements after the first match may lie outside the
      predicate's domain (in Python: applying it there could raise), and the
      search never hands them over. */
  ghost predicate DefinedUpToMatch<T>(matches: T --> bool, ls: seq<T>)
  {
    forall j ::
      (0 <= j < |ls| && forall k :: 0 <= k < j ==> matches.requires(ls[k]) && !matches(ls[k])) ==>
      matches.requires(ls[j])
  }

  /** A predicate that can be applied to every element up to some match
      meets the search's requirement, whatever it does on later elements. */
  lemma DefinedThroughMatch<T>(matches: T --> bool, ls: seq<T>, i: nat)
    requires i < |ls|
    requires forall k :: 0 <= k <= i ==> matches.requires(ls[k])
    requires matches(ls[i])
    ensures DefinedUpToMatch(matches, ls)
  {
  }

  /** `find_first(predicate, ls)`, returning the match as an Option and the
      number of elements handed to `matches`. Since `matches` is partial,
      the verifier itself checks that no element past the first match is
      handed over. */
  method FindFirst<T>(matches: T --> bool, ls: seq<T>) returns (r: Option<T>, examined: nat)
    requires DefinedUpToMatch(matches, ls)
    ensures examined <= |ls|
    ensures forall j :: 0 <= j < examined && (r.None? || j < examined - 1) ==>
      matches.requires(ls[j]) && !matches(ls[j])
    ensures r.Some? ==>
      0 < examined && r.value == ls[examined - 1] && matches.requires(r.value) && matches(r.value)
    ensures r.None? <==> forall j :: 0 <= j < |ls| ==> matches.requires(ls[j]) && !matches(ls[j])
    ensures r.None? ==> examined == |ls|
  {
    var i := 0;
    while i < |ls|
      invariant 0 <= i <= |ls|
      invariant forall j :: 0 <= j < i ==> matches.requires(ls[j]) && !matches(ls[j])
    {
      if matches(ls[i]) {
        return Some(ls[i]), i + 1;
      }
      i := i + 1;
    }
    return None, |ls|;
  }

  /** `find_first(lambda x: 10 / x > 2, [5, 2, 0])` is 2: the search stops
      at 2, so `10 / 0` is never evaluated. */
  method StopsBeforeDivisionByZero() returns (r: Option<int>, examined: nat)
    ensures r == Some(2) && examined == 2
  {
    var ls := [5, 2, 0];
    var big := (x: int) requires x != 0 => 10 / x > 2;
    assert big.requires(ls[0]) && !big(ls[0]);
    assert big.requires(ls[1]) && big(ls[1]);
    DefinedThroughMatch(big, ls, 1);
    r, examined := FindFirst(big, ls);
  }

  /** Position i holds the first element the predicate accepts. */
  ghost predicate IsFirstMatch<T>(matches: T --> bool, ls: seq<T>, i: int)
  {
    0 <= i < |ls| && matches.requires(ls[i]) && matches(ls[i]) &&
    forall j :: 0 <= j < i ==> matches.requires(ls[j]) && !matches(ls[j])
  }

  /** The predicate rejects every element. */
  ghost predicate NoMatch<T>(matches: T --> bool, ls: seq<T>)
  {
    forall j :: 0 <= j < |ls| ==> matches.requires(ls[j]) && !matches(ls[j])
  }

  /** The value Python's `find_first` returns: the match itself, or None.
      A match that is itself None cannot be told apart from no match. */
  method FindFirstValue(matches: Value --> bool, ls: seq<Value>) returns (r: Value)
    requires DefinedUpToMatch(matches, ls)
    ensures r != NoneVal ==> exists i :: IsFirstMatch(matches, ls, i) && ls[i] == r
    ensures r == NoneVal <==>
      NoMatch(matches, ls) || exists i :: IsFirstMatch(matches, ls, i) && ls[i] == NoneVal
  {
    var found, examined := FindFirst(matches, ls);
    match found
    case Some(v) =>
      r := v;
      assert IsFirstMatch(matches, ls, examined - 1);
      assert !NoMatch(matches, ls);
    case None =>
      r := NoneVal;
      assert NoMatch(matches, ls);
  }
}
