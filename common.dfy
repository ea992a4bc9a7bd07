/** Failure-carrying results shared by the services. */
module Common {

  datatype Option<+T> = None | Some(value: T)

  /** The two business failures the services raise (NestJS's NotFoundException
      and BadRequestException, each with the message the service gives it), and
      a statement the database rejects, which reaches the client as a server
      error (`InternalServerError`). */
  datatype Error = NotFound(message: string) | BadRequest(message: string) | QueryFailed(message: string)

  /** What NestJS answers when a statement fails in the database. */
  const InternalServerError: string := "Internal server error"

  datatype Result<+T> = Ok(value: T) | Err(error: Error)

  /** A JavaScript value that is either a number or a string (the two shapes a
      `+` over database decimals can produce). */
  datatype JsValue = Num(n: real) | Str(s: string)

  /** Every element occurs at most once. */
  ghost predicate Distinct<T>(s: seq<T>)
  {
    forall x | x in s :: multiset(s)[x] <= 1
  }

  /** Distinct elements sit at distinct positions. */
  lemma DistinctIndices<T>(s: seq<T>, i: int, j: int)
    requires Distinct(s)
    requires 0 <= i < j < |s|
    ensures s[i] != s[j]
  {
    var a, b, c := s[..i], s[i + 1..j], s[j + 1..];
    assert s == a + [s[i]] + b + [s[j]] + c;
    assert multiset(s) == multiset(a) + multiset{s[i]} + multiset(b) + multiset{s[j]} + multiset(c);
    assert s[i] in s && multiset(s)[s[i]] <= 1;
  }

  /** Appending keeps a sequence duplicate-free exactly when the new element
      is not already in it. */
  lemma DistinctSnoc<T>(s: seq<T>, x: T)
    ensures Distinct(s + [x]) <==> Distinct(s) && x !in s
  {
    assert multiset(s + [x]) == multiset(s) + multiset{x};
    if Distinct(s + [x]) {
      forall y | y in s
        ensures multiset(s)[y] <= 1
      {
        assert y in s + [x];
      }
      assert x in s + [x];
    }
  }
}
