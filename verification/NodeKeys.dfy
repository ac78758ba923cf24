/** When two endpoints are the same node of a chain. */
module NodeKeys {
  import opened Folds
  import opened Names

  // ---------- The core of an address ----------

  /** The blanks of the first 256 characters: tab to carriage return, space, next line, non-breaking space. */
  predicate IsBlank(c: char) {
    9 <= c as int <= 13 || c as int == 32 || c as int == 133 || c as int == 160
  }

  lemma BlankIs(c: char)
    ensures IsBlank(c) <==> IsSpace(c)
  {
  }

  ghost predicate Blank(s: string) {
    forall i :: 0 <= i < |s| ==> IsBlank(s[i])
  }

  ghost predicate Slashes(s: string) {
    forall i :: 0 <= i < |s| ==> s[i] == '/'
  }

  /** `a` is the core `c`, then slashes, between blanks. */
  ghost predicate Cut(a: string, l: string, c: string, p: string, r: string) {
    && a == l + (c + p) + r && Blank(l) && Blank(r) && Slashes(p)
    && (c + p != "" ==> !IsBlank((c + p)[0]) && !IsBlank((c + p)[|c + p| - 1]))
    && (c != "" ==> c[|c| - 1] != '/')
  }

  ghost predicate CoreOf(a: string, c: string) {
    exists l, p, r :: Cut(a, l, c, p, r)
  }

  lemma {:induction false} TrimLeftCut(s: string) returns (l: string)
    ensures s == l + TrimLeft(s) && Blank(l)
    ensures TrimLeft(s) != "" ==> !IsBlank(TrimLeft(s)[0])
  {
    if s != "" && IsSpace(s[0]) {
      var l1 := TrimLeftCut(s[1..]);
      l := [s[0]] + l1;
      assert s == [s[0]] + s[1..];
    } else {
      l := "";
    }
  }

  lemma {:induction false} TrimRightCut(s: string) returns (r: string)
    ensures s == TrimRight(s) + r && Blank(r)
    ensures TrimRight(s) != "" ==> !IsBlank(TrimRight(s)[|TrimRight(s)| - 1]) && TrimRight(s)[0] == s[0]
  {
    if s != "" && IsSpace(s[|s| - 1]) {
      var r1 := TrimRightCut(s[..|s| - 1]);
      r := r1 + [s[|s| - 1]];
      assert s == s[..|s| - 1] + [s[|s| - 1]];
    } else {
      r := "";
    }
  }

  lemma {:induction false} TrimSlashesCut(s: string) returns (p: string)
    ensures s == TrimSlashes(s) + p && Slashes(p)
    ensures TrimSlashes(s) != "" ==> TrimSlashes(s)[|TrimSlashes(s)| - 1] != '/'
  {
    if s != "" && s[|s| - 1] == '/' {
      var p1 := TrimSlashesCut(s[..|s| - 1]);
      p := p1 + "/";
      assert s == s[..|s| - 1] + [s[|s| - 1]];
    } else {
      p := "";
    }
  }

  lemma {:induction false} TrimLeftOf(l: string, m: string)
    requires Blank(l) && (m != "" ==> !IsBlank(m[0]))
    ensures TrimLeft(l + m) == m
  {
    if l != "" {
      assert (l + m)[1..] == l[1..] + m;
      TrimLeftOf(l[1..], m);
    } else {
      assert l + m == m;
    }
  }

  lemma {:induction false} TrimRightOf(m: string, r: string)
    requires Blank(r) && (m != "" ==> !IsBlank(m[|m| - 1]))
    ensures TrimRight(m + r) == m
  {
    if r != "" {
      assert (m + r)[..|m + r| - 1] == m + r[..|r| - 1];
      TrimRightOf(m, r[..|r| - 1]);
    } else {
      assert m + r == m;
    }
  }

  lemma {:induction false} TrimSlashesOf(c: string, p: string)
    requires Slashes(p) && (c != "" ==> c[|c| - 1] != '/')
    ensures TrimSlashes(c + p) == c
  {
    if p != "" {
      assert (c + p)[..|c + p| - 1] == c + p[..|p| - 1];
      TrimSlashesOf(c, p[..|p| - 1]);
    } else {
      assert c + p == c;
    }
  }

  lemma {:induction false} TrimLeftBlank(s: string)
    requires Blank(s)
    ensures TrimLeft(s) == ""
  {
    if s != "" {
      TrimLeftBlank(s[1..]);
    }
  }

  /** The core is what the two trims leave. */
  lemma CoreIs(a: string, c: string)
    ensures CoreOf(a, c) <==> c == TrimSlashes(Trim(a))
  {
    var l := TrimLeftCut(a);
    var r := TrimRightCut(TrimLeft(a));
    var p := TrimSlashesCut(Trim(a));
    var core := TrimSlashes(Trim(a));
    assert Cut(a, l, core, p, r) by {
      assert core + p == Trim(a);
      assert a == l + (core + p) + r;
    }
    if CoreOf(a, c) {
      var l1, p1, r1 :| Cut(a, l1, c, p1, r1);
      TrimOf(l1, c + p1, r1);
      TrimSlashesOf(c, p1);
    }
  }

  lemma TrimOf(l: string, m: string, r: string)
    requires Blank(l) && Blank(r) && (m != "" ==> !IsBlank(m[0]) && !IsBlank(m[|m| - 1]))
    ensures Trim(l + m + r) == m
  {
    if m == "" {
      assert l + m + r == l + r;
      TrimLeftBlank(l + r);
    } else {
      assert l + m + r == l + (m + r);
      TrimLeftOf(l, m + r);
      TrimRightOf(m, r);
    }
  }

  // ---------- Scheme and host ----------

  ghost predicate Mark(c: string, i: int) {
    0 <= i && i + 3 <= |c| && c[i] == ':' && c[i + 1] == '/' && c[i + 2] == '/'
  }

  predicate EndsHost(x: char) {
    x == '/' || x == '?' || x == '#'
  }

  /** Scheme and host reach up to `e`: the first slash, question mark or hash after the first "://", or the
      end; without "://" there is neither. */
  ghost predicate HostEnd(c: string, e: nat) {
    if forall i :: !Mark(c, i) then e == 0 else
    exists i: nat ::
      && Mark(c, i) && (forall j :: j < i ==> !Mark(c, j))
      && i + 3 <= e <= |c| && (forall j :: i + 3 <= j < e ==> !EndsHost(c[j]))
      && (e < |c| ==> EndsHost(c[e]))
  }

  function Small(x: char): char {
    if 'A' <= x <= 'Z' then ((x as int) + 32) as char else x
  }

  /** `n` is `c` with the first `e` characters in lower case. */
  ghost predicate LoweredTo(c: string, n: string, e: nat) {
    |n| == |c| && forall i :: 0 <= i < |c| ==> n[i] == if i < e then Small(c[i]) else c[i]
  }

  /** `n` is `c` with scheme and host in lower case. */
  ghost predicate HostLowered(c: string, n: string) {
    exists e: nat :: HostEnd(c, e) && LoweredTo(c, n, e)
  }

  /** The address in the form in which it is compared. */
  ghost predicate Normal(a: string, n: string) {
    exists c :: CoreOf(a, c) && HostLowered(c, n)
  }

  lemma {:induction false} LowerIs(s: string)
    ensures |Lower(s)| == |s| && forall i :: 0 <= i < |s| ==> Lower(s)[i] == Small(s[i])
  {
    if s != "" {
      LowerIs(s[1..]);
    }
  }

  lemma PrefixMark(s: string)
    ensures "://" <= s <==> Mark(s, 0)
  {
    if Mark(s, 0) {
      assert s[..3] == "://";
    }
  }

  lemma {:induction false} IndexIs(s: string)
    ensures
      var i := IndexOf(s, "://");
      && (forall j :: j < i ==> !Mark(s, j)) && ("://" <= s[i..] <==> Mark(s, i))
      && (!Mark(s, i) ==> forall j :: !Mark(s, j))
  {
    PrefixMark(s);
    if s != "" && !("://" <= s) {
      IndexIs(s[1..]);
      var k := IndexOf(s[1..], "://");
      assert s[1..][k..] == s[k + 1..];
      assert forall j :: j > 0 ==> (Mark(s, j) <==> Mark(s[1..], j - 1));
    }
  }

  lemma {:induction false} AuthorityIs(s: string)
    ensures
      var e := AuthorityEnd(s);
      (forall j :: 0 <= j < e ==> !EndsHost(s[j])) && (e < |s| ==> EndsHost(s[e]))
  {
    if s != "" && s[0] !in {'/', '?', '#'} {
      AuthorityIs(s[1..]);
    }
  }

  lemma HostEndUnique(c: string, d: nat, e: nat)
    requires HostEnd(c, d) && HostEnd(c, e)
    ensures d == e
  {
    if i :| Mark(c, i) {
      var j: nat :| Mark(c, j) && (forall k :: k < j ==> !Mark(c, k)) && j + 3 <= d <= |c|
        && (forall k :: j + 3 <= k < d ==> !EndsHost(c[k])) && (d < |c| ==> EndsHost(c[d]));
      var q: nat :| Mark(c, q) && (forall k :: k < q ==> !Mark(c, k)) && q + 3 <= e <= |c|
        && (forall k :: q + 3 <= k < e ==> !EndsHost(c[k])) && (e < |c| ==> EndsHost(c[e]));
      assert j == q;
    }
  }

  /** Lowering moves neither the mark nor the end of the host. */
  lemma HostEndKept(c: string, n: string, e: nat)
    requires |n| == |c| && forall i :: 0 <= i < |c| ==> n[i] == c[i] || n[i] == Small(c[i])
    ensures HostEnd(c, e) <==> HostEnd(n, e)
  {
    assert forall i :: 0 <= i < |c| ==> (EndsHost(c[i]) <==> EndsHost(n[i]));
    assert forall i :: 0 <= i < |c| ==> (c[i] == ':' <==> n[i] == ':') && (c[i] == '/' <==> n[i] == '/');
    assert forall i :: Mark(c, i) <==> Mark(n, i);
  }

  /** How far scheme and host reach in a core. */
  function HostSpan(c: string): nat {
    var i := IndexOf(c, "://");
    if "://" <= c[i..] then i + 3 + AuthorityEnd(c[i + 3..]) else 0
  }

  lemma HostSpanIs(c: string)
    ensures HostSpan(c) <= |c| && HostEnd(c, HostSpan(c))
  {
    var i := IndexOf(c, "://");
    IndexIs(c);
    if "://" <= c[i..] {
      AuthorityIs(c[i + 3..]);
      assert Mark(c, i);
    }
  }

  /** `m` is `h` in lower case. */
  ghost predicate Lowered(h: string, m: string) {
    |m| == |h| && forall k :: 0 <= k < |h| ==> m[k] == Small(h[k])
  }

  lemma LowerHead(p: string, q: string)
    ensures Lowered(p + "://" + q, Lower(p) + "://" + Lower(q))
  {
    LowerIs(p);
    LowerIs(q);
    var h, m := p + "://" + q, Lower(p) + "://" + Lower(q);
    forall k | 0 <= k < |h| ensures m[k] == Small(h[k]) {
      if k < |p| {
        assert h[k] == p[k] && m[k] == Lower(p)[k];
      } else if k >= |p| + 3 {
        assert h[k] == q[k - |p| - 3] && m[k] == Lower(q)[k - |p| - 3];
      }
    }
  }

  lemma HeadThenRest(h: string, m: string, r: string)
    requires Lowered(h, m)
    ensures LoweredTo(h + r, m + r, |h|)
  {
  }

  lemma AtMark(c: string, i: nat)
    requires i <= |c| && "://" <= c[i..]
    ensures i + 3 <= |c| && c == c[..i] + "://" + c[i + 3..]
  {
    assert c[i..] == "://" + c[i..][3..];
    assert c == c[..i] + c[i..];
  }

  lemma Regroup(p: string, rest: string, j: nat)
    requires j <= |rest|
    ensures p + "://" + rest == p + "://" + rest[..j] + rest[j..]
    ensures |p + "://" + rest[..j]| == |p| + 3 + j
  {
    assert rest == rest[..j] + rest[j..];
  }

  /** The part that is lowered, its lower case, and the rest. */
  lemma LowerHostParts(c: string) returns (h: string, m: string, r: string)
    ensures c == h + r && LowerHost(c) == m + r && |h| == HostSpan(c) && Lowered(h, m)
  {
    var i := IndexOf(c, "://");
    if "://" <= c[i..] {
      AtMark(c, i);
      var rest := c[i + 3..];
      var j := AuthorityEnd(rest);
      LowerHead(c[..i], rest[..j]);
      Regroup(c[..i], rest, j);
      h, m, r := c[..i] + "://" + rest[..j], Lower(c[..i]) + "://" + Lower(rest[..j]), rest[j..];
    } else {
      h, m, r := "", "", c;
      assert "" + c == c;
    }
  }

  lemma LowerHostIs(c: string)
    ensures LoweredTo(c, LowerHost(c), HostSpan(c))
  {
    var h, m, r := LowerHostParts(c);
    HeadThenRest(h, m, r);
  }

  lemma HostLoweredIs(c: string, n: string)
    ensures n == LowerHost(c) <==> HostLowered(c, n)
  {
    HostSpanIs(c);
    LowerHostIs(c);
    if HostLowered(c, n) {
      var e: nat :| HostEnd(c, e) && LoweredTo(c, n, e);
      HostEndUnique(c, e, HostSpan(c));
    }
  }

  /** The normalisation is the one that the core, scheme and host describe. */
  lemma NormalIs(a: string, n: string)
    ensures n == NormalAddress(a) <==> Normal(a, n)
  {
    var c := TrimSlashes(Trim(a));
    CoreIs(a, c);
    HostLoweredIs(c, n);
    if Normal(a, n) {
      var d :| CoreOf(a, d) && HostLowered(d, n);
      CoreIs(a, d);
    }
  }

  // ---------- The same node ----------

  predicate SameLetter(x: char, y: char) {
    x == y || ('A' <= x <= 'Z' && y as int == x as int + 32) || ('A' <= y <= 'Z' && x as int == y as int + 32)
  }

  /** Equal up to the case of the first `e` letters. */
  ghost predicate SameUpTo(c: string, d: string, e: nat) {
    |c| == |d| && forall i :: 0 <= i < |c| ==> if i < e then SameLetter(c[i], d[i]) else c[i] == d[i]
  }

  /** Equal up to the case of scheme and host. */
  ghost predicate SameButCase(c: string, d: string) {
    exists e: nat :: HostEnd(c, e) && HostEnd(d, e) && SameUpTo(c, d, e)
  }

  /** Equal up to surrounding blanks, trailing slashes and the case of scheme and host. */
  ghost predicate SameAddress(a: string, b: string) {
    exists c, d :: CoreOf(a, c) && CoreOf(b, d) && SameButCase(c, d)
  }

  lemma SmallSame(x: char, y: char)
    ensures Small(x) == Small(y) <==> SameLetter(x, y)
  {
  }

  lemma LoweredEqual(c: string, n: string, d: string, m: string, e: nat)
    requires LoweredTo(c, n, e) && LoweredTo(d, m, e)
    ensures n == m <==> SameUpTo(c, d, e)
  {
    if |c| == |d| {
      forall i | 0 <= i < |c|
        ensures n[i] == m[i] <==> if i < e then SameLetter(c[i], d[i]) else c[i] == d[i]
      {
        SmallSame(c[i], d[i]);
      }
    }
  }

  lemma SameSpan(c: string, d: string, n: string)
    requires LoweredTo(c, n, HostSpan(c)) && LoweredTo(d, n, HostSpan(d))
    ensures HostSpan(c) == HostSpan(d)
  {
    HostSpanIs(c);
    HostSpanIs(d);
    HostEndKept(c, n, HostSpan(c));
    HostEndKept(d, n, HostSpan(d));
    HostEndUnique(n, HostSpan(c), HostSpan(d));
  }

  lemma SpanOf(c: string, e: nat)
    requires HostEnd(c, e)
    ensures e == HostSpan(c)
  {
    HostSpanIs(c);
    HostEndUnique(c, e, HostSpan(c));
  }

  lemma SameLowered(c: string, d: string)
    ensures LowerHost(c) == LowerHost(d) <==> SameButCase(c, d)
  {
    LowerHostIs(c);
    LowerHostIs(d);
    HostSpanIs(c);
    HostSpanIs(d);
    if LowerHost(c) == LowerHost(d) {
      SameSpan(c, d, LowerHost(c));
      LoweredEqual(c, LowerHost(c), d, LowerHost(d), HostSpan(c));
    }
    if SameButCase(c, d) {
      var e: nat :| HostEnd(c, e) && HostEnd(d, e) && SameUpTo(c, d, e);
      SpanOf(c, e);
      SpanOf(d, e);
      LoweredEqual(c, LowerHost(c), d, LowerHost(d), e);
    }
  }

  /** Two addresses have the same normal form if and only if they are the same address. */
  lemma SameNormalIff(a: string, b: string)
    ensures NormalAddress(a) == NormalAddress(b) <==> SameAddress(a, b)
  {
    var c, d := TrimSlashes(Trim(a)), TrimSlashes(Trim(b));
    CoreIs(a, c);
    CoreIs(b, d);
    SameLowered(c, d);
    if SameAddress(a, b) {
      SameCores(a, b);
    }
  }

  lemma SameCores(a: string, b: string)
    requires SameAddress(a, b)
    ensures SameButCase(TrimSlashes(Trim(a)), TrimSlashes(Trim(b)))
  {
    var c, d :| CoreOf(a, c) && CoreOf(b, d) && SameButCase(c, d);
    CoreIs(a, c);
    CoreIs(b, d);
  }

  /** Two endpoints are the same node if and only if the normal form of the address, a hash and the model
      are the same text. */
  lemma NodesEqualIff(a: string, m: string, b: string, k: string, x: string, y: string)
    requires Normal(a, x) && Normal(b, y)
    ensures CanonicalNode(a, m) == CanonicalNode(b, k) <==> x + "#" + m == y + "#" + k
  {
    NormalIs(a, x);
    NormalIs(b, y);
  }

  lemma NormalHash(a: string)
    requires '#' !in a
    ensures '#' !in NormalAddress(a)
  {
    var c := TrimSlashes(Trim(a));
    CoreIs(a, c);
    LowerHostIs(c);
    var l, p, r :| Cut(a, l, c, p, r);
    forall i | 0 <= i < |c| ensures c[i] != '#' {
      assert c[i] == a[|l| + i];
    }
  }

  lemma SplitAtHash(x: string, m: string, y: string, k: string)
    requires '#' !in x && '#' !in y && x + "#" + m == y + "#" + k
    ensures x == y && m == k
  {
    var s, t := x + "#" + m, y + "#" + k;
    assert s[|x|] == '#' && t[|y|] == '#';
    assert s[..|x|] == x && t[..|y|] == y;
    assert s[|x| + 1..] == m && t[|y| + 1..] == k;
  }

  /** For addresses without a hash that means the same address and the same model. */
  lemma PlainNodesEqualIff(a: string, m: string, b: string, k: string)
    requires '#' !in a && '#' !in b
    ensures CanonicalNode(a, m) == CanonicalNode(b, k) <==> SameAddress(a, b) && m == k
  {
    SameNormalIff(a, b);
    NormalHash(a);
    NormalHash(b);
    if CanonicalNode(a, m) == CanonicalNode(b, k) {
      SplitAtHash(NormalAddress(a), m, NormalAddress(b), k);
    }
  }

  /** With a hash two different endpoints can be one node. */
  lemma HashCollides()
    ensures CanonicalNode("p#q", "m") == CanonicalNode("p", "q#m") && !SameAddress("p#q", "p")
  {
    assert NormalAddress("p#q") == "p#q";
    assert NormalAddress("p") == "p";
    SameNormalIff("p#q", "p");
  }
}
