/** Strings as the operator orders, joins and splits them: byte order (LC_ALL=C, Go's `<` on
    strings), `slices.Sort`, `strings.Join` and `strings.Split`. */
module Text {

  /** Byte order on strings. */
  predicate Less(a: string, b: string) {
    b != "" && (a == "" || a[0] < b[0] || (a[0] == b[0] && Less(a[1..], b[1..])))
  }

  predicate Leq(a: string, b: string) {
    a == b || Less(a, b)
  }

  /** The strings agree up to `k`, and there `a` ends or has the smaller character. */
  predicate SmallerAt(a: string, b: string, k: nat) {
    k <= |a| && k < |b| && a[..k] == b[..k] && (k == |a| || a[k] < b[k])
  }

  lemma {:induction false} LessFinds(a: string, b: string) returns (k: nat)
    requires Less(a, b)
    ensures SmallerAt(a, b, k)
  {
    if a == "" || a[0] < b[0] {
      k := 0;
    } else {
      k := LessFinds(a[1..], b[1..]);
      assert a[..k + 1] == [a[0]] + a[1..][..k] && b[..k + 1] == [b[0]] + b[1..][..k];
      k := k + 1;
    }
  }

  lemma {:induction false} FoundIsLess(a: string, b: string, k: nat)
    requires SmallerAt(a, b, k)
    ensures Less(a, b)
    decreases k
  {
    if k > 0 {
      assert a[0] == a[..k][0] == b[..k][0] == b[0];
      assert a[1..][..k - 1] == a[..k][1..] && b[1..][..k - 1] == b[..k][1..];
      FoundIsLess(a[1..], b[1..], k - 1);
    }
  }

  /** The order, told by the first place where two strings differ. */
  lemma LessIsByteOrder(a: string, b: string)
    ensures Less(a, b) <==> exists k :: SmallerAt(a, b, k)
  {
    if Less(a, b) {
      var k := LessFinds(a, b);
    } else if k :| SmallerAt(a, b, k) {
      FoundIsLess(a, b, k);
    }
  }

  lemma {:induction false} LessIrreflexive(a: string)
    ensures !Less(a, a)
  {
    if a != "" {
      LessIrreflexive(a[1..]);
    }
  }

  lemma {:induction false} LessTransitive(a: string, b: string, c: string)
    requires Less(a, b) && Less(b, c)
    ensures Less(a, c)
  {
    if a != "" && a[0] == b[0] && b[0] == c[0] {
      LessTransitive(a[1..], b[1..], c[1..]);
    }
  }

  lemma {:induction false} LessTotal(a: string, b: string)
    ensures a == b || Less(a, b) || Less(b, a)
  {
    if a != "" && b != "" && a[0] == b[0] {
      LessTotal(a[1..], b[1..]);
      assert a == [a[0]] + a[1..] && b == [b[0]] + b[1..];
    }
  }

  lemma LessAsymmetric(a: string, b: string)
    requires Less(a, b)
    ensures !Less(b, a) && a != b
  {
    LessIrreflexive(a);
    if Less(b, a) {
      LessTransitive(a, b, a);
    }
  }

  lemma LeqTransitive(a: string, b: string, c: string)
    requires Leq(a, b) && Leq(b, c)
    ensures Leq(a, c)
  {
    if a != b && b != c {
      LessTransitive(a, b, c);
    }
  }

  /** A common prefix does not change the order. */
  lemma {:induction false} LessAfterPrefix(p: string, a: string, b: string)
    ensures Less(p + a, p + b) <==> Less(a, b)
  {
    if p == "" {
      assert p + a == a && p + b == b;
    } else {
      LessAfterPrefix(p[1..], a, b);
      assert (p + a)[1..] == p[1..] + a && (p + b)[1..] == p[1..] + b;
    }
  }

  // ---- Sorting -------------------------------------------------------------------------

  ghost predicate Sorted(s: seq<string>) {
    forall i, j :: 0 <= i < j < |s| ==> Leq(s[i], s[j])
  }

  /** Sorted without repetition. */
  ghost predicate Ascending(s: seq<string>) {
    forall i, j :: 0 <= i < j < |s| ==> Less(s[i], s[j])
  }

  function Insert(x: string, s: seq<string>): seq<string> {
    if s == [] then [x]
    else if Leq(x, s[0]) then [x] + s
    else [s[0]] + Insert(x, s[1..])
  }

  /** `slices.Sort` (any sorting algorithm gives this value, see SortUnique). */
  function Sort(s: seq<string>): seq<string> {
    if s == [] then [] else Insert(s[0], Sort(s[1..]))
  }

  lemma {:induction false} InsertKeepsSorted(x: string, s: seq<string>)
    requires Sorted(s)
    ensures Sorted(Insert(x, s)) && multiset(Insert(x, s)) == multiset(s) + multiset{x}
  {
    if s != [] {
      assert s == [s[0]] + s[1..];
      if Leq(x, s[0]) {
        forall j | 0 <= j < |s| ensures Leq(x, s[j]) {
          LeqTransitive(x, s[0], s[j]);
        }
      } else {
        LessTotal(x, s[0]);
        InsertKeepsSorted(x, s[1..]);
        InsertedAfter(x, s[0], s[1..], Insert(x, s[1..]));
      }
    }
  }

  lemma InsertedAfter(x: string, first: string, s: seq<string>, t: seq<string>)
    requires multiset(t) == multiset(s) + multiset{x} && Leq(first, x) && forall k :: 0 <= k < |s| ==> Leq(first, s[k])
    ensures forall k :: 0 <= k < |t| ==> Leq(first, t[k])
  {
    forall k | 0 <= k < |t| ensures Leq(first, t[k]) {
      assert t[k] in multiset(t);
      assert t[k] == x || t[k] in multiset(s);
    }
  }

  lemma {:induction false} SortSorts(s: seq<string>)
    ensures Sorted(Sort(s)) && multiset(Sort(s)) == multiset(s)
  {
    if s != [] {
      assert s == [s[0]] + s[1..];
      SortSorts(s[1..]);
      InsertKeepsSorted(s[0], Sort(s[1..]));
    }
  }

  lemma SortedHead(a: seq<string>, b: seq<string>)
    requires Sorted(a) && a != [] && b != [] && b[0] in multiset(a)
    ensures Leq(a[0], b[0])
  {
    var j :| 0 <= j < |a| && a[j] == b[0];
  }

  lemma TailMultiset(s: seq<string>)
    requires s != []
    ensures multiset(s[1..]) == multiset(s) - multiset{s[0]}
  {
    assert s == [s[0]] + s[1..];
  }

  /** A multiset of strings has one sorted enumeration. */
  lemma {:induction false} SortedUnique(a: seq<string>, b: seq<string>)
    requires Sorted(a) && Sorted(b) && multiset(a) == multiset(b)
    ensures a == b
  {
    assert |a| == |multiset(a)| && |b| == |multiset(b)|;
    if a != [] {
      assert a[0] in multiset(b) && b[0] in multiset(a);
      SortedHead(a, b);
      SortedHead(b, a);
      if a[0] != b[0] {
        LessAsymmetric(a[0], b[0]);
      }
      TailMultiset(a);
      TailMultiset(b);
      SortedUnique(a[1..], b[1..]);
    }
  }

  lemma SortCanonical(a: seq<string>, b: seq<string>)
    ensures Sort(a) == Sort(b) <==> multiset(a) == multiset(b)
  {
    SortSorts(a);
    SortSorts(b);
    if multiset(a) == multiset(b) {
      SortedUnique(Sort(a), Sort(b));
    }
  }

  lemma AscendingIsSorted(s: seq<string>)
    requires Ascending(s)
    ensures Sorted(s) && forall i, j :: 0 <= i < j < |s| ==> s[i] != s[j]
  {
    forall i, j | 0 <= i < j < |s| ensures s[i] != s[j] {
      LessIrreflexive(s[i]);
    }
  }

  // ---- The sorted keys of a map --------------------------------------------------------

  ghost predicate IsSmallest(x: string, s: set<string>) {
    x in s && forall y :: y in s ==> Leq(x, y)
  }

  lemma {:induction false} SmallestExists(s: set<string>)
    requires s != {}
    ensures exists m :: IsSmallest(m, s)
  {
    var z :| z in s;
    var t := s - {z};
    if t == {} {
      assert s == {z};
      assert IsSmallest(z, s);
    } else {
      SmallestExists(t);
      var r :| IsSmallest(r, t);
      var m := if Leq(z, r) then z else r;
      LessTotal(r, z);
      forall y | y in s ensures Leq(m, y) {
        if y in t && Leq(z, r) {
          LeqTransitive(z, r, y);
        }
      }
      assert IsSmallest(m, s);
    }
  }

  ghost function Smallest(s: set<string>): (x: string)
    requires s != {}
    ensures IsSmallest(x, s)
  {
    SmallestExists(s);
    var x :| IsSmallest(x, s);
    x
  }

  /** `slices.Sorted(maps.Keys(m))`: the elements of a set in byte order. */
  ghost function SortedElements(s: set<string>): (r: seq<string>)
    ensures Ascending(r)
    ensures forall x :: x in r <==> x in s
    ensures |r| == |s|
  {
    if s == {} then [] else
      var x := Smallest(s);
      var rest := SortedElements(s - {x});
      assert forall i :: 0 <= i < |rest| ==> rest[i] in rest;
      [x] + rest
  }

  // ---- Sequences without repetition ----------------------------------------------------

  ghost predicate Distinct<T(!new)>(s: seq<T>) {
    forall i, j :: 0 <= i < j < |s| ==> s[i] != s[j]
  }

  lemma {:induction false} DistinctMultiset<T(!new)>(s: seq<T>)
    requires Distinct(s)
    ensures forall x :: multiset(s)[x] == if x in s then 1 else 0
  {
    if s != [] {
      var n := |s| - 1;
      DistinctMultiset(s[..n]);
      assert s == s[..n] + [s[n]];
      assert s[n] !in s[..n];
    }
  }

  lemma SameElements<T(!new)>(s: seq<T>, t: seq<T>)
    requires Distinct(s) && Distinct(t)
    ensures multiset(s) == multiset(t) <==> forall x :: x in s <==> x in t
  {
    DistinctMultiset(s);
    DistinctMultiset(t);
    if multiset(s) == multiset(t) {
      forall x ensures x in s <==> x in t {
        assert multiset(s)[x] == multiset(t)[x];
      }
    }
  }

  /** Sorting keeps the elements. */
  lemma SortElements(s: seq<string>)
    ensures forall x :: x in Sort(s) <==> x in s
    ensures |Sort(s)| == |s|
  {
    SortSorts(s);
    forall x ensures x in Sort(s) <==> x in s {
      assert x in multiset(Sort(s)) <==> x in multiset(s);
    }
    assert |multiset(Sort(s))| == |multiset(s)|;
  }

  // ---- Enumerating a set in order ------------------------------------------------------

  ghost predicate Enumerates(list: seq<string>, names: set<string>) {
    Ascending(list) && forall f :: f in list <==> f in names
  }

  /** The names in byte order, as pathname expansion and `sort` under LC_ALL=C give them. */
  method Enumerate(names: set<string>) returns (list: seq<string>)
    ensures Enumerates(list, names)
  {
    list := [];
    var todo := names;
    while todo != {}
      invariant todo <= names && Enumerates(list, names - todo)
      decreases |todo|
    {
      var f :| f in todo;
      InsertNew(f, list);
      list := Insert(f, list);
      todo := todo - {f};
    }
  }

  lemma {:induction false} InsertNew(f: string, list: seq<string>)
    requires Ascending(list) && f !in list
    ensures Ascending(Insert(f, list)) && forall g :: g in Insert(f, list) <==> g == f || g in list
  {
    if list == [] {
    } else if Leq(f, list[0]) {
      forall k | 0 < k < |list| ensures Less(f, list[k]) {
        LessTransitive(f, list[0], list[k]);
      }
    } else {
      LessTotal(f, list[0]);
      InsertNew(f, list[1..]);
      var rest := Insert(f, list[1..]);
      forall k | 0 <= k < |rest| ensures Less(list[0], rest[k]) {
        assert rest[k] in rest;
        if rest[k] != f {
          var j :| 0 <= j < |list[1..]| && list[1..][j] == rest[k];
          assert list[j + 1] == rest[k];
        }
      }
    }
  }

  /** A set has one ascending enumeration. */
  lemma OneEnumeration(a: seq<string>, b: seq<string>, names: set<string>)
    requires Enumerates(a, names) && Enumerates(b, names)
    ensures a == b
  {
    AscendingIsSorted(a);
    AscendingIsSorted(b);
    SameElements(a, b);
    SortedUnique(a, b);
  }

  // ---- Numbers -------------------------------------------------------------------------

  function Decimal(n: nat): string {
    (if n < 10 then "" else Decimal(n / 10)) + ["0123456789"[n % 10]]
  }

  /** The number that a row of digits stands for. */
  function Number(s: string): int {
    if s == "" then 0 else 10 * Number(s[..|s| - 1]) + Digit(s[|s| - 1])
  }

  function Digit(c: char): int {
    c as int - '0' as int
  }

  lemma DigitReads(d: nat)
    requires d < 10
    ensures Digit("0123456789"[d]) == d
  {
  }

  lemma NumberMore(s: string, c: char)
    ensures Number(s + [c]) == 10 * Number(s) + Digit(c)
  {
    assert (s + [c])[..|s|] == s;
  }

  lemma {:induction false} DecimalReads(n: nat)
    ensures Number(Decimal(n)) == n
    ensures Decimal(n) != "" && (n > 0 ==> Digit(Decimal(n)[0]) != 0)
  {
    DigitReads(n % 10);
    NumberMore(if n < 10 then "" else Decimal(n / 10), "0123456789"[n % 10]);
    if n >= 10 {
      DecimalReads(n / 10);
    }
  }

  // ---- Joining and splitting -----------------------------------------------------------

  function Join(parts: seq<string>, sep: string): string {
    if parts == [] then "" else if |parts| == 1 then parts[0] else parts[0] + sep + Join(parts[1..], sep)
  }

  /** `strings.Split` on a one-character separator: never empty. */
  function Split(s: string, c: char): (r: seq<string>)
    ensures r != []
  {
    if s == "" then [""]
    else
      var rest := Split(s[1..], c);
      if s[0] == c then [""] + rest else [[s[0]] + rest[0]] + rest[1..]
  }

  lemma SplitFirst(x: char, s: string, c: char)
    ensures Split([x] + s, c) == if x == c then [""] + Split(s, c) else [[x] + Split(s, c)[0]] + Split(s, c)[1..]
  {
    assert ([x] + s)[1..] == s;
  }

  lemma {:induction false} SplitPlain(s: string, c: char)
    requires c !in s
    ensures Split(s, c) == [s]
  {
    if s != "" {
      SplitPlain(s[1..], c);
      assert [s[0]] + s[1..] == s;
    }
  }

  lemma {:induction false} SplitAt(p: string, c: char, rest: string)
    requires c !in p
    ensures Split(p + [c] + rest, c) == [p] + Split(rest, c)
  {
    var s := p + [c] + rest;
    if p == "" {
      assert s[1..] == rest;
    } else {
      SplitAt(p[1..], c, rest);
      assert s[1..] == p[1..] + [c] + rest;
      assert [p[0]] + p[1..] == p;
      assert s[0] == p[0];
    }
  }

  /** Splitting undoes joining when no part holds the separator. */
  lemma {:induction false} SplitJoin(parts: seq<string>, c: char)
    requires parts != [] && forall p :: p in parts ==> c !in p
    ensures Split(Join(parts, [c]), c) == parts
  {
    if |parts| == 1 {
      SplitPlain(parts[0], c);
    } else {
      var rest := parts[1..];
      assert forall p :: p in rest ==> p in parts;
      SplitJoin(rest, c);
      SplitAt(parts[0], c, Join(rest, [c]));
      assert Join(parts, [c]) == parts[0] + [c] + Join(rest, [c]);
      assert [parts[0]] + rest == parts;
    }
  }

  lemma FirstSeparator(a: string, x: string, b: string, y: string, c: char)
    requires c !in a && c !in b && a + [c] + x == b + [c] + y
    ensures a == b && x == y
  {
    var s := a + [c] + x;
    assert forall k :: 0 <= k < |a| ==> s[k] == a[k];
    assert forall k :: 0 <= k < |b| ==> s[k] == b[k];
    assert s[|a|] == c && s[|b|] == c;
    assert |a| == |b|;
    assert s[..|a|] == a == b && s[|a| + 1..] == x == y;
  }
}
