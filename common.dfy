/** Small value types and sequence helpers shared by the rest of the model. */
module Common {

  datatype Option<+T> = None | Some(value: T) {
    function GetOr(default: T): T {
      match this
      case Some(v) => v
      case None => default
    }
  }

  datatype Result<+T, +E> = Success(value: T) | Failure(error: E)

  /** No element occurs twice: the shape a unique constraint gives a table. */
  predicate Distinct<T(==)>(s: seq<T>) {
    forall i, j :: 0 <= i < j < |s| ==> s[i] != s[j]
  }

  /** The elements of `s` that satisfy `p`, in their original order: a queryset's `.filter(...)`. */
  function Filter<T(==,!new)>(s: seq<T>, p: T -> bool): (r: seq<T>)
    ensures |r| <= |s|
    ensures forall x :: x in r <==> x in s && p(x)
  {
    if s == [] then []
    else (if p(s[0]) then [s[0]] else []) + Filter(s[1..], p)
  }

  /** `s` with every occurrence of `x` deleted: `.filter(...).delete()` on one row. */
  function Without<T(==,!new)>(s: seq<T>, x: T): seq<T> {
    Filter(s, y => y != x)
  }

  /** Number of occurrences of `x` in `s`. */
  function Count<T(==)>(s: seq<T>, x: T): nat {
    if s == [] then 0 else (if s[0] == x then 1 else 0) + Count(s[1..], x)
  }

  lemma {:induction false} DistinctConcat<T>(a: seq<T>, b: seq<T>)
    requires Distinct(a) && Distinct(b)
    requires forall x :: x in a ==> x !in b
    ensures Distinct(a + b)
  {
    forall i, j | 0 <= i < j < |a + b|
      ensures (a + b)[i] != (a + b)[j]
    {
      if j < |a| {
      } else if i >= |a| {
        assert (a + b)[i] == b[i - |a|] && (a + b)[j] == b[j - |a|];
      } else {
        assert (a + b)[i] in a && (a + b)[j] == b[j - |a|];
      }
    }
  }

  /** Appending a row that is not yet present keeps a table duplicate-free. */
  lemma DistinctAppend<T>(s: seq<T>, x: T)
    requires Distinct(s) && x !in s
    ensures Distinct(s + [x])
  {
    DistinctConcat(s, [x]);
  }

  /** Filtering never introduces duplicates. */
  lemma {:induction false} FilterDistinct<T(!new)>(s: seq<T>, p: T -> bool)
    requires Distinct(s)
    ensures Distinct(Filter(s, p))
  {
    if s != [] {
      assert Distinct(s[1..]) by {
        forall i, j | 0 <= i < j < |s[1..]| ensures s[1..][i] != s[1..][j] {
          assert s[1..][i] == s[i + 1] && s[1..][j] == s[j + 1];
        }
      }
      FilterDistinct(s[1..], p);
      var head: seq<T> := if p(s[0]) then [s[0]] else [];
      assert s[0] !in s[1..];
      DistinctConcat(head, Filter(s[1..], p));
    }
  }

  /** In a duplicate-free table, a row occurs at most once. */
  lemma {:induction false} CountDistinct<T>(s: seq<T>, x: T)
    requires Distinct(s)
    ensures Count(s, x) == if x in s then 1 else 0
  {
    if s != [] {
      assert Distinct(s[1..]) by {
        forall i, j | 0 <= i < j < |s[1..]| ensures s[1..][i] != s[1..][j] {
          assert s[1..][i] == s[i + 1] && s[1..][j] == s[j + 1];
        }
      }
      CountDistinct(s[1..], x);
      if s[0] == x {
        assert x !in s[1..];
      } else {
        assert x in s <==> x in s[1..] by {
          if x in s {
            var k :| 0 <= k < |s| && s[k] == x;
            assert s[1..][k - 1] == x;
          }
        }
      }
    }
  }

  lemma {:induction false} CountFilter<T(!new)>(s: seq<T>, p: T -> bool, x: T)
    ensures Count(Filter(s, p), x) == if p(x) then Count(s, x) else 0
  {
    if s != [] {
      CountFilter(s[1..], p, x);
      var head: seq<T> := if p(s[0]) then [s[0]] else [];
      CountConcat(head, Filter(s[1..], p), x);
    }
  }

  lemma {:induction false} CountConcat<T>(a: seq<T>, b: seq<T>, x: T)
    ensures Count(a + b, x) == Count(a, x) + Count(b, x)
  {
    if a != [] {
      assert (a + b)[0] == a[0] && (a + b)[1..] == a[1..] + b;
      CountConcat(a[1..], b, x);
    } else {
      assert a + b == b;
    }
  }

  /**
   * Deleting a row present exactly once removes exactly that row: every other row keeps its
   * multiplicity, the deleted one drops to zero.
   */
  lemma RemoveExactlyOne<T(!new)>(s: seq<T>, x: T)
    requires Distinct(s) && x in s
    ensures Distinct(Without(s, x)) && x !in Without(s, x)
    ensures forall y :: Count(Without(s, x), y) == if y == x then 0 else Count(s, y)
    ensures Count(s, x) == 1
  {
    FilterDistinct(s, y => y != x);
    CountDistinct(s, x);
    forall y ensures Count(Without(s, x), y) == if y == x then 0 else Count(s, y) {
      CountFilter(s, z => z != x, y);
    }
  }

  /** Python's `set(items)`. */
  function Elements<T(==)>(s: seq<T>): set<T> {
    set x | x in s
  }

  /**
   * Python's `len(set(items)) != len(items)` duplicate test: the set of a sequence is as large
   * as the sequence exactly when no element repeats.
   */
  lemma {:induction false} DistinctIffSetSize<T>(s: seq<T>)
    ensures |Elements(s)| <= |s|
    ensures Distinct(s) <==> |Elements(s)| == |s|
  {
    if s == [] {
      assert Elements(s) == {};
    } else {
      var rest := s[1..];
      DistinctIffSetSize(rest);
      var whole := Elements(s);
      var tail := Elements(rest);
      assert whole == tail + {s[0]} by {
        forall x | x in whole ensures x in tail + {s[0]} {
          var k :| 0 <= k < |s| && s[k] == x;
          if k > 0 { assert rest[k - 1] == x; }
        }
        forall x | x in tail ensures x in whole {
          var k :| 0 <= k < |rest| && rest[k] == x;
          assert s[k + 1] == x;
        }
      }
      if s[0] in rest {
        var k :| 0 <= k < |rest| && rest[k] == s[0];
        assert s[k + 1] == s[0];
        assert whole == tail;
        assert !Distinct(s);
      } else {
        assert |whole| == |tail| + 1;
        assert Distinct(s) <==> Distinct(rest) by {
          if Distinct(rest) {
            forall i, j | 0 <= i < j < |s| ensures s[i] != s[j] {
              if i == 0 {
                assert s[j] == rest[j - 1];
              } else {
                assert s[i] == rest[i - 1] && s[j] == rest[j - 1];
              }
            }
          }
          if Distinct(s) {
            forall i, j | 0 <= i < j < |rest| ensures rest[i] != rest[j] {
              assert rest[i] == s[i + 1] && rest[j] == s[j + 1];
            }
          }
        }
      }
    }
  }

  /** The characters Python's `str.strip()` removes. */
  predicate IsSpace(c: char) {
    var n := c as int;
    || n == 0x20 || 0x09 <= n <= 0x0D || 0x1C <= n <= 0x1F || n == 0x85 || n == 0xA0
    || n == 0x1680 || 0x2000 <= n <= 0x200A || n == 0x2028 || n == 0x2029
    || n == 0x202F || n == 0x205F || n == 0x3000
  }

  function StripLeft(s: string): (r: string)
    ensures |r| <= |s| && r == s[|s| - |r|..]
    ensures r == [] || !IsSpace(r[0])
    ensures forall i :: 0 <= i < |s| - |r| ==> IsSpace(s[i])
  {
    if s != [] && IsSpace(s[0]) then StripLeft(s[1..]) else s
  }

  function StripRight(s: string): (r: string)
    ensures |r| <= |s| && r == s[..|r|]
    ensures r == [] || !IsSpace(r[|r| - 1])
    ensures forall i :: |r| <= i < |s| ==> IsSpace(s[i])
  {
    if s != [] && IsSpace(s[|s| - 1]) then StripRight(s[..|s| - 1]) else s
  }

  /** `str.strip()`: the text without its leading and trailing whitespace. */
  function Strip(s: string): string {
    StripRight(StripLeft(s))
  }

  /** Stripping leaves a text that neither starts nor ends with whitespace, and is empty only for blank input. */
  lemma StripSpec(s: string)
    ensures var r := Strip(s); r == [] || (!IsSpace(r[0]) && !IsSpace(r[|r| - 1]))
    ensures Strip(s) == [] <==> forall i :: 0 <= i < |s| ==> IsSpace(s[i])
  {
    var l := StripLeft(s);
    var r := StripRight(l);
    if r != [] {
      assert r[0] == l[0];
    }
    if r == [] {
      assert l == [] by {
        if l != [] {
          assert false;
        }
      }
    } else {
      assert !IsSpace(s[|s| - |l|]);
    }
  }

  /** A character that is not whitespace survives stripping. */
  lemma StripKeepsInner(s: string, k: nat)
    requires k < |s| && !IsSpace(s[k])
    ensures s[k] in Strip(s)
  {
    var l := StripLeft(s);
    var off := |s| - |l|;
    assert off <= k;
    assert l[k - off] == s[k];
    var r := StripRight(l);
    assert k - off < |r|;
    assert r[k - off] == s[k];
  }
}
