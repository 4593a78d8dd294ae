/** The `impl_ffi_convert!` mechanism: a range-checked lift from a foreign code
    to an enum value. Each domain module instantiates it with its own bounds
    and its own exhaustive code table. */
module BoundedCode {
  import opened Wrappers

  /** The test of the `assert!`: both bounds included. */
  predicate InRange(code: int, lb: int, ub: int) {
    lb <= code <= ub
  }

  /** `try_from`: check the range, then select the variant whose discriminant
      is `code` (the exhaustive match that stands for `transmute`). */
  function TryFrom<T>(code: int, lb: int, ub: int, variantOf: int -> Option<T>): (r: Result<T>)
    ensures r == Err(RangeCheckFailed) <==> !InRange(code, lb, ub)
    ensures r.Ok? <==> InRange(code, lb, ub) && variantOf(code).Some?
    ensures r.Ok? ==> variantOf(code) == Some(r.value)
  {
    if !(lb <= code && code <= ub) then Err(RangeCheckFailed)
    else match variantOf(code)
      case Some(v) => Ok(v)
      case None => Err(NoSuchVariant)
  }

  // ---------------------------------------------------------------------------
  // Counting arguments about a domain's list of discriminants, whatever their
  // values: they hold for any distinct codes.

  /** No code occurs twice. */
  ghost predicate Distinct(codes: seq<int>) {
    forall i, j :: 0 <= i < j < |codes| ==> codes[i] != codes[j]
  }

  /** Codes grow strictly, neighbour by neighbour. */
  ghost predicate Increasing(codes: seq<int>) {
    forall i :: 0 <= i < |codes| - 1 ==> codes[i] < codes[i + 1]
  }

  lemma {:induction false} IncreasingIsDistinct(codes: seq<int>)
    requires Increasing(codes)
    ensures Distinct(codes)
    ensures forall i :: 0 <= i < |codes| ==> codes[0] <= codes[i]
  {
    if |codes| > 1 {
      var rest := codes[1..];
      assert Increasing(rest) by {
        forall i | 0 <= i < |rest| - 1 ensures rest[i] < rest[i + 1] {
          assert rest[i] == codes[i + 1] && rest[i + 1] == codes[i + 2];
        }
      }
      IncreasingIsDistinct(rest);
      forall i | 0 <= i < |codes| ensures codes[0] <= codes[i] {
        if i > 0 { assert codes[i] == rest[i - 1]; }
      }
      forall i, j | 0 <= i < j < |codes| ensures codes[i] != codes[j] {
        assert codes[j] == rest[j - 1];
        if i > 0 { assert codes[i] == rest[i - 1]; }
      }
    }
  }

  /** The codes of `codes`, as a set. */
  function CodeSet(codes: seq<int>): set<int> {
    set c | c in codes
  }

  /** The codes a range check with bounds `lb` and `ub` lets through. The
      conjunct `lb <= c <= ub` repeats InRange only so that Dafny can see the
      set is finite; InRange gives the comprehension its trigger. */
  function Interval(lb: int, ub: int): set<int> {
    set c | lb <= c <= ub && InRange(c, lb, ub)
  }

  lemma {:induction false} CodeSetSize(codes: seq<int>)
    requires Distinct(codes)
    ensures |CodeSet(codes)| == |codes|
  {
    if |codes| > 0 {
      var rest := codes[1..];
      assert Distinct(rest) by {
        forall i, j | 0 <= i < j < |rest| ensures rest[i] != rest[j] {
          assert rest[i] == codes[i + 1] && rest[j] == codes[j + 1];
        }
      }
      CodeSetSize(rest);
      assert codes == [codes[0]] + rest;
      assert CodeSet(codes) == CodeSet(rest) + {codes[0]};
      assert codes[0] !in CodeSet(rest) by {
        forall i | 0 <= i < |rest| ensures rest[i] != codes[0] {
          assert rest[i] == codes[i + 1];
        }
      }
    }
  }

  lemma {:induction false} IntervalSize(lb: int, ub: int)
    requires lb <= ub + 1
    ensures |Interval(lb, ub)| == ub - lb + 1
    decreases ub - lb
  {
    if lb <= ub {
      IntervalSize(lb + 1, ub);
      assert Interval(lb, ub) == Interval(lb + 1, ub) + {lb};
    } else {
      assert Interval(lb, ub) == {};
    }
  }

  lemma SubsetSize(a: set<int>, b: set<int>)
    requires a <= b
    ensures |a| <= |b|
  {
    assert b == a + (b - a);
  }

  /** More distinct discriminants than codes in range: whatever their values,
      one of them is rejected by the range check, so its variant cannot make
      the round trip. */
  lemma VariantOutsideRange(codes: seq<int>, lb: int, ub: int)
    requires Distinct(codes)
    requires lb <= ub + 1 && |codes| > ub - lb + 1
    ensures exists i :: 0 <= i < |codes| && !InRange(codes[i], lb, ub)
  {
    if forall i :: 0 <= i < |codes| ==> InRange(codes[i], lb, ub) {
      assert CodeSet(codes) <= Interval(lb, ub);
      CodeSetSize(codes);
      IntervalSize(lb, ub);
      SubsetSize(CodeSet(codes), Interval(lb, ub));
      assert false;
    }
  }

  /** Fewer distinct discriminants than codes in range: whatever their values,
      some code passes the range check without being any variant's code. */
  lemma CodeWithoutVariant(codes: seq<int>, lb: int, ub: int)
    requires Distinct(codes)
    requires |codes| < ub - lb + 1
    ensures exists c :: InRange(c, lb, ub) && c !in codes
  {
    CodeSetSize(codes);
    IntervalSize(lb, ub);
    if Interval(lb, ub) <= CodeSet(codes) {
      SubsetSize(Interval(lb, ub), CodeSet(codes));
      assert false;
    }
    var c :| c in Interval(lb, ub) && c !in CodeSet(codes);
    assert InRange(c, lb, ub);
  }
}
