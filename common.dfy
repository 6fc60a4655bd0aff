/** Small value-level helpers shared by the passport modules: an Option type,
    order-preserving filtering of a table, and the string operations the
    Python code relies on (substring test, prefix/suffix, lexicographic order). */
module Common {

  datatype Option<+T> = None | Some(value: T) {
    function GetOr(default: T): T {
      match this
      case Some(v) => v
      case None => default
    }
  }

  /** The rows of `s` that satisfy `f`, in their original order: the value of
      a Django `queryset.filter(...)` over a table modelled as a sequence. */
  function Filter<T(!new)>(s: seq<T>, f: T -> bool): (r: seq<T>)
    ensures |r| <= |s|
    ensures forall x :: x in r <==> x in s && f(x)
  {
    if s == [] then []
    else
      assert s == [s[0]] + s[1..];
      var rest := Filter(s[1..], f);
      if f(s[0]) then [s[0]] + rest else rest
  }

  /** Filtering twice is filtering once by the conjunction. */
  lemma {:induction false} FilterFilter<T(!new)>(s: seq<T>, f: T -> bool, g: T -> bool, h: T -> bool)
    requires forall x :: h(x) == (f(x) && g(x))
    ensures Filter(Filter(s, f), g) == Filter(s, h)
  {
    if s != [] {
      FilterFilter(s[1..], f, g, h);
    }
  }

  /** Filtering by two predicates that agree everywhere gives the same rows. */
  lemma {:induction false} FilterSame<T(!new)>(s: seq<T>, f: T -> bool, g: T -> bool)
    requires forall x :: f(x) == g(x)
    ensures Filter(s, f) == Filter(s, g)
  {
    if s != [] {
      FilterSame(s[1..], f, g);
    }
  }

  /** A filter that every row passes changes nothing. */
  lemma {:induction false} FilterAll<T(!new)>(s: seq<T>, f: T -> bool)
    requires forall x :: x in s ==> f(x)
    ensures Filter(s, f) == s
  {
    if s != [] {
      assert s == [s[0]] + s[1..];
      FilterAll(s[1..], f);
    }
  }

  /** A filter that no row passes leaves nothing. */
  lemma {:induction false} FilterNone<T(!new)>(s: seq<T>, f: T -> bool)
    requires forall x :: x in s ==> !f(x)
    ensures Filter(s, f) == []
  {
    if s != [] {
      assert s[0] in s;
      FilterNone(s[1..], f);
    }
  }

  /** One narrowing by reassignment, `if c: rows = rows.filter(g)`, keeps
      a table narrowed by `acc` equal to the table narrowed by `acc'`. */
  lemma FilterStep<T(!new)>(s: seq<T>, acc: T -> bool, c: bool, g: T -> bool, acc': T -> bool)
    requires forall x :: acc'(x) == (acc(x) && (!c || g(x)))
    ensures (if c then Filter(Filter(s, acc), g) else Filter(s, acc)) == Filter(s, acc')
  {
    if c {
      FilterFilter(s, acc, g, acc');
    } else {
      FilterSame(s, acc, acc');
    }
  }

  /** `if c: rows = rows.filter(g)`, for rows that are the table `s`
      narrowed by `acc`: the result is `s` narrowed by `acc'`. */
  method Narrow<T(!new)>(ghost s: seq<T>, rows: seq<T>, c: bool, g: T -> bool,
                         ghost acc: T -> bool, ghost acc': T -> bool)
    returns (rows': seq<T>)
    requires rows == Filter(s, acc)
    requires forall x :: acc'(x) == (acc(x) && (!c || g(x)))
    ensures rows' == Filter(s, acc')
  {
    FilterStep(s, acc, c, g, acc');
    rows' := rows;
    if c {
      rows' := Filter(rows, g);
    }
  }

  predicate StartsWith(s: string, prefix: string) {
    |prefix| <= |s| && s[..|prefix|] == prefix
  }

  /** Python's `a in b` for strings: `a` starts at some position of `b`. */
  predicate Contains(b: string, a: string)
    decreases |b|
  {
    StartsWith(b, a) || (|b| > 0 && Contains(b[1..], a))
  }

  /** Python's `s.endswith(suffix)`. */
  predicate EndsWith(s: string, suffix: string) {
    |suffix| <= |s| && s[|s| - |suffix|..] == suffix
  }

  lemma EndsWithConcat(s: string, suffix: string)
    ensures EndsWith(s + suffix, suffix)
  {
    assert (s + suffix)[|s|..] == suffix;
  }

  /** A string without the character `c` contains no pattern that holds `c`. */
  lemma {:induction false} NotContainsWithout(b: string, a: string, k: nat, c: char)
    requires k < |a| && a[k] == c && c !in b
    ensures !Contains(b, a)
    decreases |b|
  {
    if |b| > 0 {
      NotContainsWithout(b[1..], a, k, c);
    }
  }

  /** Lexicographic order on strings by character code, the order a database
      `ORDER BY name` yields under a binary collation. */
  predicate LexLe(a: string, b: string)
    decreases |a|
  {
    |a| == 0 || (|b| > 0 && (a[0] < b[0] || (a[0] == b[0] && LexLe(a[1..], b[1..]))))
  }

  lemma {:induction false} LexLeTotal(a: string, b: string)
    ensures LexLe(a, b) || LexLe(b, a)
    decreases |a|
  {
    if |a| > 0 && |b| > 0 && a[0] == b[0] {
      LexLeTotal(a[1..], b[1..]);
    }
  }

  lemma {:induction false} LexLeTrans(a: string, b: string, c: string)
    requires LexLe(a, b) && LexLe(b, c)
    ensures LexLe(a, c)
    decreases |a|
  {
    if |a| > 0 && |b| > 0 && |c| > 0 && a[0] == b[0] == c[0] {
      LexLeTrans(a[1..], b[1..], c[1..]);
    }
  }
}
