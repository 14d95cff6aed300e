/** Identifiers, the controllers' failure statuses, and sequence helpers shared by
    the backend stores and the client reducers. */
module Common {

  /** Database identifiers (Mongo ObjectIds) are opaque; only equality matters. */
  type UserId = nat
  type ChannelId = nat
  type MessageId = nat

  /** The HTTP failure statuses the controllers answer with. */
  datatype Error =
    | BadRequest   // 400
    | Forbidden    // 403
    | NotFound     // 404
    | ServerError  // 500
  {
    function Status(): nat {
      match this
      case BadRequest => 400
      case Forbidden => 403
      case NotFound => 404
      case ServerError => 500
    }
  }

  datatype Result<T> = Ok(value: T) | Err(error: Error)

  /** A reply that carries only a confirmation message on success. */
  datatype Outcome = Pass | Fail(error: Error)

  /** The confirmation-only reply to a request whose decision is `r`. */
  function OutcomeOf<T>(r: Result<T>): Outcome {
    if r.Ok? then Pass else Fail(r.error)
  }

  /** JavaScript `undefined`/`null` versus a present value. */
  datatype Option<T> = None | Some(value: T)

  predicate NoDuplicates<T(==)>(s: seq<T>) {
    forall i, j :: 0 <= i < j < |s| ==> s[i] != s[j]
  }

  /** `rel` holds of every pair of elements in sequence order. */
  ghost predicate Pairwise<T>(s: seq<T>, rel: (T, T) -> bool) {
    forall i, j :: 0 <= i < j < |s| ==> rel(s[i], s[j])
  }

  /** JavaScript's `Array.prototype.filter`: the elements satisfying `keep`, in order. */
  function Filter<T(!new)>(s: seq<T>, keep: T -> bool): (r: seq<T>)
    ensures |r| <= |s|
    ensures forall x :: x in r <==> x in s && keep(x)
    ensures (forall x :: x in s ==> keep(x)) ==> r == s
    ensures forall x {:trigger multiset(r)[x]} :: multiset(r)[x] == if keep(x) then multiset(s)[x] else 0
  {
    if s == [] then []
    else
      var rest := Filter(s[1..], keep);
      assert s == [s[0]] + s[1..];
      if keep(s[0]) then [s[0]] + rest else rest
  }

  /** Filtering distributes over concatenation, so the kept elements stay in their
      original relative order. */
  lemma {:induction false} FilterConcat<T(!new)>(a: seq<T>, b: seq<T>, keep: T -> bool)
    ensures Filter(a + b, keep) == Filter(a, keep) + Filter(b, keep)
  {
    if a == [] {
      assert a + b == b;
    } else {
      assert (a + b)[1..] == a[1..] + b;
      FilterConcat(a[1..], b, keep);
    }
  }

  /** Any relation that holds pairwise in order before filtering still holds after. */
  lemma {:induction false} FilterKeepsPairwise<T(!new)>(s: seq<T>, keep: T -> bool, rel: (T, T) -> bool)
    requires Pairwise(s, rel)
    ensures Pairwise(Filter(s, keep), rel)
  {
    if s != [] {
      var rest := Filter(s[1..], keep);
      assert Pairwise(s[1..], rel) by {
        forall i, j | 0 <= i < j < |s[1..]| ensures rel(s[1..][i], s[1..][j]) {
          assert s[1..][i] == s[i + 1] && s[1..][j] == s[j + 1];
        }
      }
      FilterKeepsPairwise(s[1..], keep, rel);
      if keep(s[0]) {
        var r := [s[0]] + rest;
        forall i, j | 0 <= i < j < |r| ensures rel(r[i], r[j]) {
          if i == 0 {
            assert r[j] == rest[j - 1] && rest[j - 1] in s[1..];
            var k :| 0 <= k < |s[1..]| && s[1..][k] == r[j];
            assert s[k + 1] == r[j];
          } else {
            assert r[i] == rest[i - 1] && r[j] == rest[j - 1];
          }
        }
      }
    }
  }

  /** Filtering keeps a list free of duplicates (the members list after a leave). */
  lemma FilterKeepsNoDuplicates<T(!new)>(s: seq<T>, keep: T -> bool)
    requires NoDuplicates(s)
    ensures NoDuplicates(Filter(s, keep))
  {
    var differ := (a: T, b: T) => a != b;
    FilterKeepsPairwise(s, keep, differ);
    var r := Filter(s, keep);
    assert forall i, j :: 0 <= i < j < |r| ==> differ(r[i], r[j]);
  }
}
