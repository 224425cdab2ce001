/** Small vocabulary shared by the component models. */
module Common {

  datatype Option<+T> = None | Some(value: T)

  datatype Result<+T, +E> = Success(value: T) | Failure(error: E)

  /** The smallest member of a non-empty set of primary keys. */
  function MinOf(keys: set<nat>): (least: nat)
    requires keys != {}
    ensures least in keys && forall k | k in keys :: least <= k
  {
    assert exists least :: least in keys && forall k | k in keys :: least <= k by {
      var k :| k in keys;
      MinExists(keys, k);
    }
    var least :| least in keys && forall k | k in keys :: least <= k;
    least
  }

  lemma {:induction false} MinExists(keys: set<nat>, k: nat)
    requires k in keys
    ensures exists least :: least in keys && forall j | j in keys :: least <= j
    decreases k
  {
    if smaller :| smaller in keys && smaller < k {
      MinExists(keys, smaller);
    } else {
      assert forall j | j in keys :: k <= j;
    }
  }

  /** What an unordered query's first() returns: the match with the least primary key. */
  function First(keys: set<nat>): (found: Option<nat>)
    ensures found.None? <==> keys == {}
    ensures found.Some? ==> found.value in keys && forall k | k in keys :: found.value <= k
  {
    if keys == {} then None else Some(MinOf(keys))
  }

  lemma {:induction false} SubsetSize<T>(small: set<T>, large: set<T>)
    requires small <= large
    ensures |small| <= |large|
    decreases |small|
  {
    if small != {} {
      var x :| x in small;
      SubsetSize(small - {x}, large - {x});
    }
  }

  function LowerChar(c: char): char {
    if 'A' <= c <= 'Z' then ((c as int) + 32) as char else c
  }

  function Lower(s: string): (r: string)
    ensures |r| == |s|
  {
    seq(|s|, i requires 0 <= i < |s| => LowerChar(s[i]))
  }

  predicate IsSpace(c: char) {
    c in {' ', '\t', '\n', '\r'}
  }

  function Strip(s: string): string {
    if s != "" && IsSpace(s[0]) then Strip(s[1..])
    else if s != "" && IsSpace(s[|s| - 1]) then Strip(s[..|s| - 1])
    else s
  }
}
