/**
 * The two string operations the dashboard relies on: taking the last
 * `/`-separated segment of a reference (`s.split('/').pop()`) and comparing
 * date strings (`localeCompare`), modelled as lexicographic order on code points.
 */
module Strings {

  /** `s.split('/').pop()`: the text after the last '/', or all of `s` when it has none. */
  function LastSegment(s: string): (r: string)
    ensures '/' !in r
    ensures |r| <= |s| && r == s[|s| - |r|..]
    ensures r == s || s[|s| - |r| - 1] == '/'
  {
    if |s| == 0 then ""
    else if s[|s| - 1] == '/' then ""
    else
      var init := s[..|s| - 1];
      var r' := LastSegment(init);
      assert s == init + [s[|s| - 1]];
      r' + [s[|s| - 1]]
  }

  /** A reference built as `<prefix>/<id>` resolves to `id`, whatever the prefix holds. */
  lemma {:induction false} LastSegmentOfPath(prefix: string, id: string)
    requires '/' !in id
    ensures LastSegment(prefix + "/" + id) == id
  {
    var s := prefix + "/" + id;
    if |id| == 0 {
      assert s[|s| - 1] == '/';
    } else {
      var init := id[..|id| - 1];
      assert '/' !in init by {
        forall k | 0 <= k < |init| ensures init[k] != '/' {
          assert init[k] == id[k];
        }
      }
      LastSegmentOfPath(prefix, init);
      assert s[..|s| - 1] == prefix + "/" + init;
      assert s[|s| - 1] == id[|id| - 1];
      assert id == init + [id[|id| - 1]];
    }
  }

  /** Lexicographic `a <= b`: the order `a.localeCompare(b) <= 0` gives on ISO date strings. */
  predicate LexLe(a: string, b: string): (r: bool)
    ensures |a| == 0 ==> r
    ensures r && |a| > 0 ==> |b| > 0 && a[0] <= b[0]
    ensures |a| > 0 && |b| > 0 && a[0] != b[0] ==> (r <==> a[0] < b[0])
  {
    |a| == 0 || (|b| > 0 && (a[0] < b[0] || (a[0] == b[0] && LexLe(a[1..], b[1..]))))
  }

  lemma {:induction false} LexLeReflexive(a: string)
    ensures LexLe(a, a)
  {
    if |a| > 0 {
      LexLeReflexive(a[1..]);
    }
  }

  lemma {:induction false} LexLeTotal(a: string, b: string)
    ensures LexLe(a, b) || LexLe(b, a)
  {
    if |a| > 0 && |b| > 0 && a[0] == b[0] {
      LexLeTotal(a[1..], b[1..]);
    }
  }

  lemma {:induction false} LexLeTransitive(a: string, b: string, c: string)
    requires LexLe(a, b) && LexLe(b, c)
    ensures LexLe(a, c)
  {
    if |a| > 0 && a[0] == b[0] && b[0] == c[0] {
      LexLeTransitive(a[1..], b[1..], c[1..]);
    }
  }

  lemma {:induction false} LexLeAntisymmetric(a: string, b: string)
    requires LexLe(a, b) && LexLe(b, a)
    ensures a == b
  {
    if |a| > 0 && |b| > 0 {
      LexLeAntisymmetric(a[1..], b[1..]);
      assert a == [a[0]] + a[1..] && b == [b[0]] + b[1..];
    }
  }
}
