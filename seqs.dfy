/** Sequence helpers shared by the message and client models: the `join` of
    JavaScript and Python, its inverse `Split`, and an order-preserving
    filter-then-map. */
module Seqs {
  import opened Wrappers

  /** `parts.join(sep)` (JavaScript) and `sep.join(parts)` (Python): the
      parts in order with `sep` between neighbours; the empty list joins to "". */
  function Join(parts: seq<string>, sep: string): string
  {
    if |parts| == 0 then ""
    else if |parts| == 1 then parts[0]
    else parts[0] + sep + Join(parts[1..], sep)
  }

  /** Index of the first occurrence of `c` in `s`. */
  function IndexOf(s: string, c: char): (i: nat)
    requires c in s
    ensures i < |s| && s[i] == c && c !in s[..i]
  {
    if s[0] == c then 0 else 1 + IndexOf(s[1..], c)
  }

  /** `s.split(c)`: the pieces between the occurrences of `c`; never empty. */
  function Split(s: string, c: char): (r: seq<string>)
    ensures |r| > 0
    decreases |s|
  {
    if c !in s then [s]
    else
      var i := IndexOf(s, c);
      [s[..i]] + Split(s[i + 1..], c)
  }

  lemma {:induction false} IndexOfAfterPrefix(p: string, c: char, t: string)
    requires c !in p
    ensures c in p + [c] + t && IndexOf(p + [c] + t, c) == |p|
  {
    var s := p + [c] + t;
    assert s[|p|] == c;
    if p != [] {
      assert s[1..] == p[1..] + [c] + t;
      IndexOfAfterPrefix(p[1..], c, t);
    }
  }

  /** Joining with a one-character separator that no part contains can be
      undone by splitting on it: every part comes back, in order. */
  lemma {:induction false} SplitJoin(parts: seq<string>, c: char)
    requires |parts| > 0
    requires forall i :: 0 <= i < |parts| ==> c !in parts[i]
    ensures Split(Join(parts, [c]), c) == parts
  {
    if |parts| > 1 {
      var p, j := parts[0], Join(parts[1..], [c]);
      var s := p + [c] + j;
      assert Join(parts, [c]) == s;
      IndexOfAfterPrefix(p, c, j);
      assert s[..|p|] == p;
      assert s[|p| + 1..] == j;
      SplitJoin(parts[1..], c);
      assert parts == [p] + parts[1..];
    }
  }

  /** The selected value of one element, as a list of zero or one values. */
  function Selected<A, B>(x: A, sel: A -> Option<B>): seq<B>
  {
    match sel(x)
    case Some(y) => [y]
    case None => []
  }

  /** `s.filter(p).map(f)`, with `sel(x) == Some(f(x))` exactly when `p(x)`
      holds: the selected values of `s`, in order. */
  function FilterMap<A, B(!new)>(s: seq<A>, sel: A -> Option<B>): (r: seq<B>)
    ensures |r| <= |s|
    ensures r == [] <==> forall i :: 0 <= i < |s| ==> sel(s[i]).None?
    ensures forall y :: y in r <==> exists i :: 0 <= i < |s| && sel(s[i]) == Some(y)
  {
    if s == [] then []
    else
      var rest := FilterMap(s[1..], sel);
      assert forall i :: 0 < i < |s| ==> s[i] == s[1..][i - 1];
      assert forall y :: (exists i :: 0 <= i < |s[1..]| && sel(s[1..][i]) == Some(y))
                         ==> (exists i :: 0 <= i < |s| && sel(s[i]) == Some(y));
      Selected(s[0], sel) + rest
  }

  /** Filtering a concatenation filters each half: the filter keeps the
      order of the elements it keeps. */
  lemma {:induction false} FilterMapAppend<A, B(!new)>(a: seq<A>, b: seq<A>, sel: A -> Option<B>)
    ensures FilterMap(a + b, sel) == FilterMap(a, sel) + FilterMap(b, sel)
  {
    if a != [] {
      assert (a + b)[0] == a[0];
      assert (a + b)[1..] == a[1..] + b;
      FilterMapAppend(a[1..], b, sel);
    } else {
      assert a + b == b;
    }
  }

  /** When exactly the element at `i` is selected, the filtered list is its value alone. */
  lemma {:induction false} OnlySelected<A, B(!new)>(s: seq<A>, sel: A -> Option<B>, i: nat)
    requires i < |s| && sel(s[i]).Some?
    requires forall j :: 0 <= j < |s| && j != i ==> sel(s[j]).None?
    ensures FilterMap(s, sel) == [sel(s[i]).value]
  {
    var rest := s[1..];
    assert forall j :: 0 < j < |s| ==> s[j] == rest[j - 1];
    if i == 0 {
      assert forall j :: 0 <= j < |rest| ==> sel(rest[j]).None?;
    } else {
      OnlySelected(rest, sel, i - 1);
    }
  }

  /** A filtered list of one element comes from exactly one selected element. */
  lemma {:induction false} SelectedIndex<A, B(!new)>(s: seq<A>, sel: A -> Option<B>) returns (i: nat)
    requires |FilterMap(s, sel)| == 1
    ensures i < |s| && sel(s[i]) == Some(FilterMap(s, sel)[0])
    ensures forall j :: 0 <= j < |s| && j != i ==> sel(s[j]).None?
  {
    var rest := s[1..];
    assert forall j :: 0 < j < |s| ==> s[j] == rest[j - 1];
    if sel(s[0]).Some? {
      assert FilterMap(rest, sel) == [];
      i := 0;
    } else {
      var k := SelectedIndex(rest, sel);
      i := k + 1;
    }
  }

  /** Exactly one element is selected precisely when the filtered list has
      one element, and that element is the one selected value. */
  lemma SingleSelection<A, B(!new)>(s: seq<A>, sel: A -> Option<B>)
    ensures |FilterMap(s, sel)| == 1 <==>
            exists i :: 0 <= i < |s| && sel(s[i]).Some? && forall j :: 0 <= j < |s| && j != i ==> sel(s[j]).None?
    ensures |FilterMap(s, sel)| == 1 ==>
            forall i :: 0 <= i < |s| && sel(s[i]).Some? ==> FilterMap(s, sel)[0] == sel(s[i]).value
  {
    if |FilterMap(s, sel)| == 1 {
      var i := SelectedIndex(s, sel);
    }
    if exists i :: 0 <= i < |s| && sel(s[i]).Some? && forall j :: 0 <= j < |s| && j != i ==> sel(s[j]).None? {
      var i :| 0 <= i < |s| && sel(s[i]).Some? && forall j :: 0 <= j < |s| && j != i ==> sel(s[j]).None?;
      OnlySelected(s, sel, i);
    }
  }

  /** `s.map(f)`. */
  function MapSeq<A, B>(s: seq<A>, f: A -> B): (r: seq<B>)
    ensures |r| == |s| && forall i :: 0 <= i < |s| ==> r[i] == f(s[i])
  {
    seq(|s|, i requires 0 <= i < |s| => f(s[i]))
  }
}
