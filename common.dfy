/** Values shared by every module of the model: optional values, results carrying the
    errors the Go code passes around, and the two order-preserving filters that several
    operations use to split a list of hostnames. */
module Common {

  datatype Option<+T> = None | Some(value: T)

  datatype Result<+T> = Ok(value: T) | Err(error: Error)

  /** The errors the core tells apart. */
  datatype Error =
    | RecordNotFound            // gorm.ErrRecordNotFound
    | UniqueViolation(column: string)
    | EngineFault               // any other failure of the database engine
    | ProviderFault             // a call to the CDN provider returned an error
    | ObtainFault               // the ACME client could not issue a certificate
    | PemParseFault             // the certificate PEM did not decode or parse
    | NoParentDomain            // a hostname without a "."
    | NotAStruct                // structToMap was handed something other than a struct

  predicate Distinct<T(==)>(s: seq<T>) {
    forall i, j :: 0 <= i < j < |s| ==> s[i] != s[j]
  }

  /** The elements of `s` that are not in `bad`, in their order, duplicates kept. */
  function Without<T(==)>(s: seq<T>, bad: set<T>): seq<T> {
    if s == [] then []
    else Without(s[..|s| - 1], bad) + (if s[|s| - 1] in bad then [] else [s[|s| - 1]])
  }

  /** The elements of `s` that are in `keep`, in their order, duplicates kept. */
  function Within<T(==)>(s: seq<T>, keep: set<T>): seq<T> {
    if s == [] then []
    else Within(s[..|s| - 1], keep) + (if s[|s| - 1] in keep then [s[|s| - 1]] else [])
  }

  /** Filtering a concatenation filters each part: the filters keep the input's order. */
  lemma {:induction false} FiltersAppend<T>(a: seq<T>, b: seq<T>, bad: set<T>)
    ensures Without(a + b, bad) == Without(a, bad) + Without(b, bad)
    ensures Within(a + b, bad) == Within(a, bad) + Within(b, bad)
    decreases |b|
  {
    if b == [] {
      assert a + b == a;
    } else {
      var b' := b[..|b| - 1];
      assert (a + b)[..|a + b| - 1] == a + b';
      assert (a + b)[|a + b| - 1] == b[|b| - 1];
      FiltersAppend(a, b', bad);
    }
  }

  /** How often each value survives: all of its copies or none of them. */
  lemma {:induction false} FilterCounts<T>(s: seq<T>, bad: set<T>, x: T)
    ensures multiset(Without(s, bad))[x] == if x in bad then 0 else multiset(s)[x]
    ensures multiset(Within(s, bad))[x] == if x in bad then multiset(s)[x] else 0
    decreases |s|
  {
    if s != [] {
      var init := s[..|s| - 1];
      assert s == init + [s[|s| - 1]];
      FilterCounts(init, bad, x);
    }
  }

  /** The two filters split `s`: together they hold every element exactly as often as `s`. */
  lemma {:induction false} FiltersPartition<T>(s: seq<T>, bad: set<T>)
    ensures multiset(Without(s, bad)) + multiset(Within(s, bad)) == multiset(s)
    decreases |s|
  {
    if s != [] {
      var init := s[..|s| - 1];
      assert s == init + [s[|s| - 1]];
      FiltersPartition(init, bad);
    }
  }

  /** Membership after filtering. */
  lemma FiltersMembers<T>(s: seq<T>, bad: set<T>, x: T)
    ensures x in Without(s, bad) <==> x in s && x !in bad
    ensures x in Within(s, bad) <==> x in s && x in bad
  {
    FilterCounts(s, bad, x);
    assert x in Without(s, bad) <==> multiset(Without(s, bad))[x] > 0;
    assert x in Within(s, bad) <==> multiset(Within(s, bad))[x] > 0;
    assert x in s <==> multiset(s)[x] > 0;
  }
}
