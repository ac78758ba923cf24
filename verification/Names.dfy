/** Strings as the merge uses them: lexicographic order, sorting, decimal suffixes. */
module Names {
  import opened Folds

  // ---------- Order ----------

  predicate Less(a: string, b: string) {
    b != "" && (a == "" || a[0] < b[0] || (a[0] == b[0] && Less(a[1..], b[1..])))
  }

  lemma {:induction false} LessIrreflexive(a: string)
    ensures !Less(a, a)
  {
    if a != "" {
      LessIrreflexive(a[1..]);
    }
  }

  lemma {:induction false} LessTransitive(a: string, b: string, c: string)
    requires Less(a, b) && Less(b, c)
    ensures Less(a, c)
  {
    if a != "" && a[0] == b[0] == c[0] {
      LessTransitive(a[1..], b[1..], c[1..]);
    }
  }

  lemma {:induction false} LessTotal(a: string, b: string)
    ensures a == b || Less(a, b) || Less(b, a)
  {
    if a != "" && b != "" && a[0] == b[0] {
      LessTotal(a[1..], b[1..]);
      if a[1..] == b[1..] {
        assert a == [a[0]] + a[1..] && b == [b[0]] + b[1..];
      }
    }
  }

  lemma {:induction false} PrefixLess(a: string, s: string)
    requires s != ""
    ensures Less(a, a + s)
  {
    if a != "" {
      assert (a + s)[1..] == a[1..] + s;
      PrefixLess(a[1..], s);
    }
  }

  ghost predicate Sorted(names: seq<string>) {
    forall i, j :: 0 <= i < j < |names| ==> Less(names[i], names[j])
  }

  lemma Largest(names: set<string>) returns (m: string)
    requires names != {}
    ensures m in names && forall x :: x in names ==> x == m || Less(x, m)
  {
    m := Member(names);
    if names != {m} {
      var rest := Largest(names - {m});
      LessTotal(m, rest);
      if Less(m, rest) {
        m := rest;
      } else {
        forall x | x in names ensures x == m || Less(x, m) {
          if x != m && x != rest {
            LessTransitive(x, rest, m);
          }
        }
      }
    }
  }

  /** The sorted sequence of a set of names. */
  ghost function SortedOf(names: set<string>): (r: seq<string>)
    ensures Sorted(r)
    ensures forall x :: x in r <==> x in names
  {
    if names == {} then [] else
    LargestIs(names);
    var m :| m in names && forall x :: x in names ==> x == m || Less(x, m);
    SortedOf(names - {m}) + [m]
  }

  lemma LargestIs(names: set<string>)
    requires names != {}
    ensures exists m :: m in names && forall x :: x in names ==> x == m || Less(x, m)
  {
    var m := Largest(names);
  }

  lemma SortedDistinct(a: seq<string>, i: int, j: int)
    requires Sorted(a) && 0 <= i < |a| && 0 <= j < |a| && a[i] == a[j]
    ensures i == j
  {
    LessIrreflexive(a[i]);
  }

  lemma SameEmpty(a: seq<string>, b: seq<string>)
    requires forall x :: x in a <==> x in b
    ensures a == [] <==> b == []
  {
    if |a| > 0 {
      assert a[0] in a;
    } else if |b| > 0 {
      HasMember(b);
    }
  }

  lemma HasMember(b: seq<string>)
    requires b != []
    ensures exists x :: x in b
  {
    assert b[0] in b;
  }

  lemma InitMembers(a: seq<string>)
    requires Sorted(a) && a != []
    ensures forall x :: x in a[..|a| - 1] <==> x in a && x != a[|a| - 1]
  {
    var n := |a| - 1;
    forall x ensures x in a[..n] <==> x in a && x != a[n] {
      if x in a[..n] {
        var i :| 0 <= i < n && a[i] == x;
        LessIrreflexive(x);
      }
      Snoc(a);
    }
  }

  /** A sorted sequence is determined by its members. */
  lemma {:induction false} SortedUnique(a: seq<string>, b: seq<string>)
    requires Sorted(a) && Sorted(b)
    requires forall x :: x in a <==> x in b
    ensures a == b
  {
    if a != [] || b != [] {
      SameEmpty(a, b);
      var m, n := |a| - 1, |b| - 1;
      assert a[m] in b && b[|b| - 1] in a;
      LastIsLargest(a, b[n]);
      LastIsLargest(b, a[m]);
      if a[m] != b[n] {
        LessTransitive(a[m], b[n], a[m]);
        LessIrreflexive(a[m]);
      }
      InitMembers(a);
      InitMembers(b);
      assert a[m] == b[n];
      forall x ensures x in a[..m] <==> x in b[..n] {
        assert x in a[..m] <==> x in a && x != a[m];
        assert x in b[..n] <==> x in b && x != b[n];
      }
      SortedUnique(a[..m], b[..n]);
      Snoc(a);
      Snoc(b);
    }
  }

  lemma LastIsLargest(a: seq<string>, x: string)
    requires Sorted(a) && x in a
    ensures x == a[|a| - 1] || Less(x, a[|a| - 1])
  {
  }

  /** Insertion into a sorted sequence without the name. */
  method InsertName(names: seq<string>, x: string) returns (r: seq<string>)
    requires Sorted(names) && x !in names
    ensures Sorted(r) && forall y :: y in r <==> y in names || y == x
  {
    var i := |names|;
    while i > 0 && !Less(names[i - 1], x)
      invariant 0 <= i <= |names|
      invariant forall j :: i <= j < |names| ==> Less(x, names[j])
    {
      LessTotal(names[i - 1], x);
      i := i - 1;
    }
    forall j | 0 <= j < i ensures Less(names[j], x) {
      if j < i - 1 {
        LessTransitive(names[j], names[i - 1], x);
      }
    }
    r := names[..i] + [x] + names[i..];
  }

  // ---------- Decimal numbers ----------

  function Digit(d: nat): char
    requires d < 10
  {
    ['0', '1', '2', '3', '4', '5', '6', '7', '8', '9'][d]
  }

  function Decimal(n: nat): string {
    if n < 10 then [Digit(n)] else Decimal(n / 10) + [Digit(n % 10)]
  }

  lemma DigitInjective(c: nat, d: nat)
    requires c < 10 && d < 10 && Digit(c) == Digit(d)
    ensures c == d
  {
  }

  lemma {:induction false} DecimalInjective(m: nat, n: nat)
    requires Decimal(m) == Decimal(n)
    ensures m == n
  {
    var a, b := Decimal(m), Decimal(n);
    DecimalNonEmpty(m / 10);
    DecimalNonEmpty(n / 10);
    assert a[|a| - 1] == Digit(m % 10) && b[|b| - 1] == Digit(n % 10);
    DigitInjective(m % 10, n % 10);
    if m >= 10 && n >= 10 {
      assert a[..|a| - 1] == Decimal(m / 10) && b[..|b| - 1] == Decimal(n / 10);
      DecimalInjective(m / 10, n / 10);
    }
  }

  lemma {:induction false} DecimalNonEmpty(n: nat)
    ensures Decimal(n) != "" && '#' !in Decimal(n)
  {
    if n >= 10 {
      DecimalNonEmpty(n / 10);
    }
  }

  /** The number that digits stand for. */
  function Value(s: string): int {
    if s == "" then 0 else 10 * Value(s[..|s| - 1]) + (s[|s| - 1] as int - 48)
  }

  /** The usual decimal text: digits, no leading zero, that stand for the number. */
  lemma {:induction false} DecimalIs(n: nat)
    ensures Value(Decimal(n)) == n && |Decimal(n)| > 0 && (n > 0 ==> Decimal(n)[0] != '0')
    ensures forall i :: 0 <= i < |Decimal(n)| ==> '0' <= Decimal(n)[i] <= '9'
  {
    if n >= 10 {
      DecimalIs(n / 10);
      assert Decimal(n)[..|Decimal(n)| - 1] == Decimal(n / 10);
    } else {
      assert Decimal(n)[..0] == "";
    }
  }

  // ---------- Trimming and node keys ----------

  predicate IsSpace(c: char) {
    c in {' ', '\t', '\n', '\r', '\U{0B}', '\U{0C}', '\U{85}', '\U{A0}'}
  }

  function TrimLeft(s: string): string {
    if s != "" && IsSpace(s[0]) then TrimLeft(s[1..]) else s
  }

  function TrimRight(s: string): string {
    if s != "" && IsSpace(s[|s| - 1]) then TrimRight(s[..|s| - 1]) else s
  }

  function Trim(s: string): string {
    TrimRight(TrimLeft(s))
  }

  function TrimSlashes(s: string): string {
    if s != "" && s[|s| - 1] == '/' then TrimSlashes(s[..|s| - 1]) else s
  }

  function Lower(s: string): string {
    if s == "" then "" else
    [if 'A' <= s[0] <= 'Z' then ((s[0] as int) + 32) as char else s[0]] + Lower(s[1..])
  }

  /** The first position of `sub`, or the length. */
  function IndexOf(s: string, sub: string): (i: nat)
    ensures i <= |s|
  {
    if s == "" || sub <= s then 0 else 1 + IndexOf(s[1..], sub)
  }

  /** The first position of a path, query or fragment, or the length. */
  function AuthorityEnd(s: string): (i: nat)
    ensures i <= |s|
  {
    if s == "" || s[0] in {'/', '?', '#'} then 0 else 1 + AuthorityEnd(s[1..])
  }

  /** Scheme and host in lower case. */
  function LowerHost(s: string): string {
    var i := IndexOf(s, "://");
    if "://" <= s[i..] then
      var rest := s[i + 3..];
      var j := AuthorityEnd(rest);
      Lower(s[..i]) + "://" + Lower(rest[..j]) + rest[j..]
    else s
  }

  /** A platform address as it is compared. */
  function NormalAddress(baseURL: string): string {
    LowerHost(TrimSlashes(Trim(baseURL)))
  }

  /** An endpoint as it enters a chain signature. */
  function CanonicalNode(baseURL: string, model: string): string {
    NormalAddress(baseURL) + "#" + model
  }
}
