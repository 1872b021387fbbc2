/** The retry loop around a serializable transaction. */
module SerializableTransactions {
  import opened Tuples

  datatype Error = Postgres(sqlState: string) | Sqlite(code: int) | OtherError

  const SERIALIZATION_FAILURE := "40001"
  const SQLITE_ERROR := 1

  predicate IsSerializationFailure(e: Error) {
    match e
    case Postgres(state) => state == SERIALIZATION_FAILURE
    case Sqlite(code) => code == SQLITE_ERROR
    case OtherError => false
  }

  /** What one attempt meets: what others have committed by the time it begins, the error of the transaction's function,
      and the error of the commit. */
  datatype Attempt<!D> = Attempt(others: D -> D, body: Option<Error>, commit: Option<Error>)

  function Failure<D(!new)>(a: Attempt<D>): Option<Error> {
    if a.body.Some? then a.body else a.commit
  }

  /** The first n attempts all fail on serialization. */
  predicate AllConflict<D(!new)>(script: nat -> Attempt<D>, n: nat) {
    forall i: nat | i < n :: Failure(script(i)).Some? && IsSerializationFailure(Failure(script(i)).value)
  }

  /** The database as the others leave it, when n attempts have begun and had no effect. */
  function Others<D(!new)>(data: D, script: nat -> Attempt<D>, n: nat): D {
    if n == 0 then data else script(n - 1).others(Others(data, script, n - 1))
  }

  /** How the loop may end: all attempts before the last conflict, and the last one succeeds, fails otherwise, or
      conflicts too with no attempt left. */
  ghost predicate Handled<D(!new)>(script: nat -> Attempt<D>, max: int, ok: bool, attempts: nat) {
    && attempts <= (if max < 0 then 0 else max) && (attempts > 0 ==> AllConflict(script, attempts - 1))
    && (ok ==> attempts > 0 && Failure(script(attempts - 1)).None?)
    && (!ok ==> (attempts > 0 && Failure(script(attempts - 1)).Some? && !AllConflict(script, attempts))
                || (attempts >= max && AllConflict(script, attempts)))
  }

  class Database<D(!new)> {
    var data: D

    constructor (data: D)
      ensures this.data == data
    {
      this.data := data;
    }

    /** One attempt: begin, run, and commit or roll back. Only a commit without error has an effect. */
    method Try(a: Attempt<D>, txFunc: D -> D) returns (failure: Option<Error>)
      modifies this
      ensures failure == Failure(a)
      ensures data == if failure.None? then txFunc(a.others(old(data))) else a.others(old(data))
    {
      data := a.others(data);
      var tx := txFunc(data);
      if a.body.Some? {
        return a.body;
      }
      if a.commit.Some? {
        return a.commit;
      }
      data := tx;
      return None;
    }

    /** All or nothing: at most max attempts run, all before the last conflict, and the function takes effect exactly
        once if there is no error and not at all otherwise. A max that is not positive is an error at once. */
    method HandleSerializableTransaction(max: int, script: nat -> Attempt<D>, txFunc: D -> D)
      returns (ok: bool, ghost attempts: nat)
      modifies this
      ensures Handled(script, max, ok, attempts)
      ensures data == var seen := Others(old(data), script, attempts); if ok then txFunc(seen) else seen
    {
      var i := 0;
      attempts := 0;
      while i < max
        invariant 0 <= i && attempts == i && i <= if max < 0 then 0 else max
        invariant AllConflict(script, i) && data == Others(old(data), script, i)
      {
        var failure := Try(script(i), txFunc);
        attempts := attempts + 1;
        i := i + 1;
        if failure.Some? {
          if IsSerializationFailure(failure.value) {
            continue;
          }
          assert !AllConflict(script, attempts);
          return false, attempts;
        }
        return true, attempts;
      }
      return false, attempts;
    }
  }

  /** Whether the loop succeeds is decided by the first attempt that is not a conflict: it must come within max and
      have no error. */
  ghost predicate Succeeds<D(!new)>(script: nat -> Attempt<D>, max: int) {
    exists n: nat :: n < max && AllConflict(script, n) && Failure(script(n)).None?
  }

  /** The ending is pinned down: success and the number of attempts are functions of what the attempts meet. */
  lemma HandledIff<D(!new)>(script: nat -> Attempt<D>, max: int, ok: bool, attempts: nat)
    requires Handled(script, max, ok, attempts)
    ensures ok <==> Succeeds(script, max)
    ensures forall ok', attempts' | Handled(script, max, ok', attempts') :: ok' == ok && attempts' == attempts
  {
  }

  /** Which errors are retried: Postgres state 40001 and SQLite code 1, and no others. After n of them and then an
      attempt without an error the loop succeeds exactly when that is within the limit, in n + 1 attempts; any other
      error ends it at once. */
  lemma RetriedErrors<D(!new)>(script: nat -> Attempt<D>, max: int, ok: bool, attempts: nat, n: nat)
    requires Handled(script, max, ok, attempts)
    requires forall i: nat | i < n ::
               Failure(script(i)) == Some(Postgres("40001")) || Failure(script(i)) == Some(Sqlite(1))
    ensures Failure(script(n)).None? ==> (ok <==> n < max) && (n < max ==> attempts == n + 1)
    ensures Failure(script(n)) !in {None, Some(Postgres("40001")), Some(Sqlite(1))} && n < max ==>
              !ok && attempts == n + 1
    ensures max <= n ==> !ok && attempts == if max < 0 then 0 else max
  {
    assert AllConflict(script, n);
  }

  /** An error of the function counts before one of the commit. */
  lemma FailureMeaning<D(!new)>(a: Attempt<D>)
    ensures Failure(a).None? <==> a.body.None? && a.commit.None?
    ensures a.body.Some? ==> Failure(a) == a.body
    ensures a.body.None? ==> Failure(a) == a.commit
  {
  }
}
