// Subject names: the unordered comparison behind the alt_names check, and the
// name a Let's Encrypt path stands for.
module Names {
  import opened Paths

  // ------------------------------------------------------ string ordering

  // Lexicographic order, shorter first.
  predicate Leq(a: string, b: string) {
    a == "" || (b != "" && (a[0] < b[0] || (a[0] == b[0] && Leq(a[1..], b[1..]))))
  }

  lemma {:induction false} LeqTotal(a: string, b: string)
    ensures Leq(a, b) || Leq(b, a)
  {
    if a == "" || b == "" || a[0] != b[0] {
    } else {
      LeqTotal(a[1..], b[1..]);
    }
  }

  lemma {:induction false} LeqAntisymmetric(a: string, b: string)
    requires Leq(a, b) && Leq(b, a)
    ensures a == b
  {
    if a == "" || b == "" {
    } else {
      LeqAntisymmetric(a[1..], b[1..]);
      assert a == [a[0]] + a[1..] && b == [b[0]] + b[1..];
    }
  }

  lemma {:induction false} LeqTransitive(a: string, b: string, c: string)
    requires Leq(a, b) && Leq(b, c)
    ensures Leq(a, c)
  {
    if a == "" || b == "" || c == "" || a[0] != b[0] || b[0] != c[0] {
    } else {
      LeqTransitive(a[1..], b[1..], c[1..]);
    }
  }

  predicate Sorted(s: seq<string>) {
    forall i, j :: 0 <= i < j < |s| ==> Leq(s[i], s[j])
  }

  // --------------------------------------------- uniqueness of sorted lists

  lemma HeadIsLeast(s: seq<string>, t: seq<string>)
    requires s != [] && t != [] && Sorted(t) && multiset(s) == multiset(t)
    ensures s[0] in t && Leq(t[0], s[0])
  {
    assert s[0] in multiset(s);
    var i :| 0 <= i < |t| && t[i] == s[0];
    if i == 0 {
      LeqTotal(t[0], t[0]);
    }
  }

  lemma TailMembers(s: seq<string>, t: seq<string>)
    requires s != [] && t != [] && s[0] == t[0] && multiset(s) == multiset(t)
    ensures multiset(s[1..]) == multiset(t[1..])
  {
    assert s == [s[0]] + s[1..] && t == [t[0]] + t[1..];
    assert multiset(s[1..]) == multiset(s) - multiset{s[0]};
    assert multiset(t[1..]) == multiset(t) - multiset{t[0]};
  }

  // Two sorted lists with the same members are the same list.
  lemma {:induction false} SortedUnique(s: seq<string>, t: seq<string>)
    requires Sorted(s) && Sorted(t) && multiset(s) == multiset(t)
    ensures s == t
  {
    assert |multiset(s)| == |s| && |multiset(t)| == |t|;
    if s == [] {
    } else {
      assert s[0] == t[0] by {
        HeadIsLeast(s, t);
        HeadIsLeast(t, s);
        LeqAntisymmetric(s[0], t[0]);
      }
      TailMembers(s, t);
      SortedUnique(s[1..], t[1..]);
      assert s == [s[0]] + s[1..] && t == [t[0]] + t[1..];
    }
  }

  // -------------------------------------------------------- library sort

  // Reference for the library's sort: insertion.
  function Insert(x: string, s: seq<string>): (r: seq<string>)
    ensures multiset(r) == multiset(s) + multiset{x}
  {
    if s == [] then [x]
    else if Leq(x, s[0]) then [x] + s
    else assert s == [s[0]] + s[1..]; [s[0]] + Insert(x, s[1..])
  }

  lemma {:induction false} InsertSorted(x: string, s: seq<string>)
    requires Sorted(s)
    ensures Sorted(Insert(x, s))
  {
    if s == [] {
    } else {
      if Leq(x, s[0]) {
        forall j | 0 <= j < |s|
          ensures Leq(x, s[j])
        {
          if j > 0 { LeqTransitive(x, s[0], s[j]); }
        }
      } else {
        LeqTotal(x, s[0]);
        InsertSorted(x, s[1..]);
        var r := Insert(x, s[1..]);
        forall j | 0 <= j < |r|
          ensures Leq(s[0], r[j])
        {
          assert r[j] in multiset(r);
          if r[j] != x {
            assert r[j] in multiset(s[1..]);
            var k :| 0 <= k < |s[1..]| && s[1..][k] == r[j];
            assert s[1 + k] == r[j];
          }
        }
      }
    }
  }

  function SortedCopy(s: seq<string>): (r: seq<string>)
    ensures multiset(r) == multiset(s)
    ensures Sorted(r)
  {
    if s == [] then []
    else
      assert s == [s[0]] + s[1..];
      InsertSorted(s[0], SortedCopy(s[1..]));
      Insert(s[0], SortedCopy(s[1..]))
  }

  // The library's in-place sort.  Only its contract is used.
  method SortInPlace(a: array<string>)
    modifies a
    ensures Sorted(a[..]) && multiset(a[..]) == multiset(old(a[..]))
  {
    var s := SortedCopy(a[..]);
    assert |s| == |multiset(s)| == |a[..]|;
    forall i | 0 <= i < a.Length {
      a[i] := s[i];
    }
    assert a[..] == s;
  }

  // ------------------------------------------------- unordered comparison

  // Equal as multisets, for any two lists; the arguments are values and stay
  // as they are, only the clones are sorted.
  method SlicesEqualUnordered(a: seq<string>, b: seq<string>) returns (equal: bool)
    ensures equal <==> multiset(a) == multiset(b)
  {
    if |a| != |b| {
      assert |multiset(a)| == |a| && |multiset(b)| == |b|;
      return false;
    }
    var aCopy := new string[|a|](i requires 0 <= i < |a| => a[i]);
    var bCopy := new string[|b|](i requires 0 <= i < |b| => b[i]);
    assert aCopy[..] == a && bCopy[..] == b;
    SortInPlace(aCopy);
    SortInPlace(bCopy);
    equal := aCopy[..] == bCopy[..];
    if multiset(a) == multiset(b) {
      SortedUnique(aCopy[..], bCopy[..]);
    }
  }

  // ------------------------------------------------------------- le_path

  function TrimLeft(s: string): string {
    if Rooted(s) then TrimLeft(s[1..]) else s
  }

  function TrimTrailing(s: string): string {
    if s != "" && s[|s| - 1] == '/' then TrimTrailing(s[..|s| - 1]) else s
  }

  function LePathFqdn(lePath: string): string {
    var trimmed := TrimTrailing(TrimLeft(lePath));
    if trimmed == "" then ""
    else var parts := Segments(trimmed); parts[|parts| - 1]
  }

  // The names a Let's Encrypt certificate is expected to carry.
  function ExpectedNames(lePath: string, altNames: seq<string>): seq<string> {
    (if LePathFqdn(lePath) != "" then [LePathFqdn(lePath)] else []) + altNames
  }

  function Slashes(n: nat): string {
    seq(n, i => '/')
  }

  lemma {:induction false} TrimLeftShape(s: string) returns (n: nat)
    ensures s == Slashes(n) + TrimLeft(s) && !Rooted(TrimLeft(s))
  {
    n := 0;
    if Rooted(s) {
      var m := TrimLeftShape(s[1..]);
      n := m + 1;
      assert s == ['/'] + s[1..] && Slashes(n) == ['/'] + Slashes(m);
    }
  }

  lemma {:induction false} TrimTrailingShape(s: string) returns (n: nat)
    ensures s == TrimTrailing(s) + Slashes(n)
    ensures TrimTrailing(s) != "" ==> TrimTrailing(s)[|TrimTrailing(s)| - 1] != '/'
  {
    n := 0;
    if s != "" && s[|s| - 1] == '/' {
      var m := TrimTrailingShape(s[..|s| - 1]);
      n := m + 1;
      assert s == s[..|s| - 1] + ['/'] && Slashes(n) == Slashes(m) + ['/'];
    }
  }

  lemma {:induction false} LastPart(s: string) returns (prefix: string)
    ensures var parts := Segments(s); s == prefix + parts[|parts| - 1]
    ensures prefix == "" || prefix[|prefix| - 1] == '/'
  {
    if NoSlash(s) {
      SplitPlain(s);
      prefix := "";
    } else {
      var rest := LastPart(s[1..]);
      assert s == [s[0]] + s[1..];
      prefix := [s[0]] + rest;
      if s[0] != '/' {
        assert !NoSlash(s[1..]);
        SplitMany(s[1..]);
        assert rest != "";
      }
    }
  }

  lemma TrimmedShape(lePath: string) returns (lead: nat, after: nat)
    ensures var trimmed := TrimTrailing(TrimLeft(lePath));
            && lePath == Slashes(lead) + (trimmed + Slashes(after))
            && (trimmed != "" ==> trimmed[|trimmed| - 1] != '/')
  {
    lead := TrimLeftShape(lePath);
    after := TrimTrailingShape(TrimLeft(lePath));
  }

  // The name is the last non-empty segment: it has no slash, what precedes it
  // is empty or ends in a slash, and only slashes follow it.
  lemma LePathFqdnIsLastSegment(lePath: string) returns (before: string, after: nat)
    ensures NoSlash(LePathFqdn(lePath))
    ensures lePath == before + LePathFqdn(lePath) + Slashes(after)
    ensures before == "" || before[|before| - 1] == '/'
    ensures LePathFqdn(lePath) == "" ==> NoSegment(lePath)
  {
    var lead;
    lead, after := TrimmedShape(lePath);
    var trimmed := TrimTrailing(TrimLeft(lePath));
    before := Slashes(lead);
    if trimmed != "" {
      var prefix := LastPart(trimmed);
      before := before + prefix;
      Reassociate(lePath, Slashes(lead), prefix, LePathFqdn(lePath), Slashes(after));
    }
  }

  predicate NoSegment(s: string) {
    forall i :: 0 <= i < |s| ==> s[i] == '/'
  }

  lemma Reassociate(all: string, a: string, b: string, c: string, d: string)
    requires all == a + (b + c + d)
    ensures all == a + b + c + d
  {
  }

  // However the path is written, with slashes in front, doubled or behind: a
  // name that follows a slash or nothing and has only slashes after it is the
  // one.
  lemma FqdnIs(lePath: string, before: string, name: string, n: nat)
    requires lePath == before + name + Slashes(n) && NoSlash(name) && name != ""
    requires before == "" || before[|before| - 1] == '/'
    ensures LePathFqdn(lePath) == name
  {
    var b, k := LePathFqdnIsLastSegment(lePath);
    var found := LePathFqdn(lePath);
    assert lePath[|before|] == name[0] != '/';
    assert !NoSegment(lePath);
    SameTail(before + name, n, b + found, k);
    SameLast(before, name, b, found);
  }

  // A text that ends in no slash and n slashes after it can be taken apart in
  // one way.
  lemma SameTail(x: string, n: nat, y: string, k: nat)
    requires x + Slashes(n) == y + Slashes(k)
    requires x != "" && y != "" && x[|x| - 1] != '/' && y[|y| - 1] != '/'
    ensures x == y && n == k
  {
    var all := x + Slashes(n);
    assert all[|x| - 1] == x[|x| - 1] && (y + Slashes(k))[|y| - 1] == y[|y| - 1];
    assert forall i :: |x| <= i < |all| ==> all[i] == Slashes(n)[i - |x|] == '/';
    assert forall i :: |y| <= i < |all| ==> (y + Slashes(k))[i] == Slashes(k)[i - |y|] == '/';
    assert x == all[..|x|] && y == (y + Slashes(k))[..|y|];
  }

  lemma SameLast(a: string, x: string, b: string, y: string)
    requires a + x == b + y && NoSlash(x) && NoSlash(y)
    requires a == "" || a[|a| - 1] == '/'
    requires b == "" || b[|b| - 1] == '/'
    ensures x == y
  {
    var all := a + x;
    assert forall i :: |a| <= i < |all| ==> all[i] == x[i - |a|] && all[i] != '/';
    assert forall i :: |b| <= i < |all| ==> (b + y)[i] == y[i - |b|] && all[i] != '/';
    assert a != "" ==> all[|a| - 1] == '/';
    assert b != "" ==> (b + y)[|b| - 1] == '/';
    assert x == all[|a|..] && y == (b + y)[|b|..];
  }
}
