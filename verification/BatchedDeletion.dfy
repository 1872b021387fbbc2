/** The deletion job: rows matching a condition are deleted in batches of bounded size. */
module BatchedDeletion {
  import opened Iteration

  /** The dry run's estimate of the number of batches. */
  function EstimatedBatches(count: nat, batchSize: nat): nat
    requires batchSize > 0
  {
    (count + batchSize - 1) / batchSize
  }

  lemma {:induction false} MultiplesApart(x: nat, y: nat, b: nat)
    requires x < y
    ensures x * b + b <= y * b
  {
    if x + 1 < y {
      MultiplesApart(x, y - 1, b);
    }
    assert y * b == (y - 1) * b + b;
  }

  lemma QuotientIs(n: nat, b: nat, q: nat)
    requires 0 < b && q * b <= n < q * b + b
    ensures n / b == q
  {
    var q', r := n / b, n % b;
    assert n == q' * b + r;
    if q' < q {
      MultiplesApart(q', q, b);
    } else if q' > q {
      MultiplesApart(q, q', b);
    }
  }

  lemma FullBatch(count: nat, batchSize: nat)
    requires 0 < batchSize <= count
    ensures EstimatedBatches(count, batchSize) == 1 + EstimatedBatches(count - batchSize, batchSize)
  {
    var q := (count - 1) / batchSize;
    assert (q + 1) * batchSize == q * batchSize + batchSize;
    QuotientIs(count - 1 + batchSize, batchSize, q + 1);
  }

  lemma LastBatch(count: nat, batchSize: nat)
    requires 0 < count <= batchSize
    ensures EstimatedBatches(count, batchSize) == 1 && EstimatedBatches(0, batchSize) == 0
  {
  }

  class Table<Row(==, !new)> {
    var rows: set<Row>

    ghost function Matching(clause: Row -> bool): set<Row>
      reads this
    {
      set r | r in rows && clause(r)
    }

    /** SELECT COUNT, row by row: the number the dry run reports. */
    method Count(clause: Row -> bool) returns (count: nat)
      ensures count == |Matching(clause)|
    {
      count := 0;
      var rest := rows;
      ghost var counted: set<Row> := {};
      while rest != {}
        invariant rest <= rows && count == |counted|
        invariant counted == set r | r in rows - rest && clause(r)
        decreases |rest|
      {
        var r := Pick(rest);
        rest := rest - {r};
        if clause(r) {
          count := count + 1;
          counted := counted + {r};
        }
      }
      assert counted == Matching(clause);
    }

    /** A dry run, and then the job with nothing else changing the table: what was announced is what happens. */
    method DryRunThenDelete(clause: Row -> bool, batchSize: nat, fails: nat -> bool)
      returns (announced: nat, estimate: nat, total: nat, batches: nat, ok: bool)
      requires batchSize > 0
      modifies this
      ensures ok ==> total == announced && batches == estimate && Matching(clause) == {}
      ensures total <= announced && batches <= estimate && (ok <==> forall i | 0 <= i <= estimate :: !fails(i))
      ensures rows - Matching(clause) == old(rows - Matching(clause))
    {
      announced := Count(clause);
      estimate := EstimatedBatches(announced, batchSize);
      total, batches, ok := DeleteBatched(clause, batchSize, fails);
    }

    /** One DELETE statement: the database chooses which matching rows fill the batch. */
    method DeleteBatch(clause: Row -> bool, batchSize: nat) returns (affected: nat)
      modifies this
      ensures rows <= old(rows) && Matching(clause) <= old(Matching(clause))
      ensures rows - Matching(clause) == old(rows - Matching(clause))
      ensures affected == if |old(Matching(clause))| <= batchSize then |old(Matching(clause))| else batchSize
      ensures |Matching(clause)| == |old(Matching(clause))| - affected
    {
      var left := set r | r in rows && clause(r);
      affected := 0;
      while affected < batchSize && left != {}
        invariant left == Matching(clause) && rows <= old(rows)
        invariant affected <= batchSize && |left| + affected == |old(Matching(clause))|
        invariant rows - left == old(rows - Matching(clause))
        decreases |left|
      {
        var r := Pick(left);
        left := left - {r};
        rows := rows - {r};
        affected := affected + 1;
      }
    }

    /** Deletes exactly the matching rows, as many as the dry run counts, in as many batches as it estimates. When a
        statement fails, the rows of the batches before it are gone, no other row is touched, and the total counts them.
        */
    method DeleteBatched(clause: Row -> bool, batchSize: nat, fails: nat -> bool)
      returns (total: nat, batches: nat, ok: bool)
      requires batchSize > 0
      modifies this
      ensures rows - Matching(clause) == old(rows - Matching(clause)) && Matching(clause) <= old(Matching(clause))
      ensures total == |old(Matching(clause))| - |Matching(clause)|
      ensures batches + EstimatedBatches(|Matching(clause)|, batchSize)
              == EstimatedBatches(|old(Matching(clause))|, batchSize)
      ensures ok <==> forall i | 0 <= i <= EstimatedBatches(|old(Matching(clause))|, batchSize) :: !fails(i)
      ensures ok ==> Matching(clause) == {} && total == |old(Matching(clause))|
                     && batches == EstimatedBatches(|old(Matching(clause))|, batchSize)
      ensures !ok ==> fails(batches)
    {
      total, batches := 0, 0;
      LastBatch(batchSize, batchSize);
      while true
        invariant rows - Matching(clause) == old(rows - Matching(clause)) && Matching(clause) <= old(Matching(clause))
        invariant total + |Matching(clause)| == |old(Matching(clause))|
        invariant batches + EstimatedBatches(|Matching(clause)|, batchSize)
                  == EstimatedBatches(|old(Matching(clause))|, batchSize)
        invariant forall i | 0 <= i < batches :: !fails(i)
        decreases |Matching(clause)|
      {
        ghost var count := |Matching(clause)|;
        if fails(batches) {
          return total, batches, false;
        }
        var affected := DeleteBatch(clause, batchSize);
        if affected == 0 {
          break;
        }
        if count <= batchSize {
          LastBatch(count, batchSize);
        } else {
          FullBatch(count, batchSize);
        }
        total := total + affected;
        batches := batches + 1;
      }
      ok := true;
    }
  }
}
