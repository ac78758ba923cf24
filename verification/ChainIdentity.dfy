/** What the merge makes of a name that both sides have, in terms of the endpoints on their chains. */
module ChainIdentity {
  import opened Folds
  import opened Bundle
  import opened Tables
  import opened Names
  import opened NodeKeys
  import opened ChainCompare
  import opened Chains
  import opened LapiMerge
  import LapiProofs
  import opened BundleMerge
  import opened MergeTheorems

  // ---------- Nodes ----------

  /** The same model on the same address. */
  ghost predicate SameEndpoint(r: Route, q: Route) {
    r.model == q.model && SameAddress(r.platformBaseURL, q.platformBaseURL)
  }

  ghost predicate Plain(r: Route) {
    '#' !in r.platformBaseURL
  }

  lemma NodesOfChain(routes: seq<Route>, a: string)
    ensures NodesAre(Nodes(ChainOf(routes, a)), ChainOf(routes, a))
  {
    SortIs(OfAlias(routes, a));
    SortOrdered(ChainOf(routes, a));
  }

  lemma NodeIff(r: Route, q: Route)
    requires Plain(r) && Plain(q)
    ensures CanonicalNode(r.platformBaseURL, r.model) == CanonicalNode(q.platformBaseURL, q.model) <==>
      SameEndpoint(r, q)
  {
    PlainNodesEqualIff(r.platformBaseURL, r.model, q.platformBaseURL, q.model);
  }

  /** Two chains of one name, endpoint by endpoint. */
  ghost predicate SameChain(c: seq<Route>, l: seq<Route>) {
    |c| == |l| && forall i :: 0 <= i < |c| ==> SameEndpoint(c[i], l[i])
  }

  ghost predicate NodesAre(ns: seq<string>, chain: seq<Route>) {
    |ns| == |chain| && forall i :: 0 <= i < |chain| ==>
      ns[i] == CanonicalNode(chain[i].platformBaseURL, chain[i].model)
  }

  ghost predicate AllPlain(chain: seq<Route>) {
    forall i :: 0 <= i < |chain| ==> Plain(chain[i])
  }

  lemma SameNodes(c: seq<Route>, l: seq<Route>, cn: seq<string>, ln: seq<string>)
    requires NodesAre(cn, c) && NodesAre(ln, l) && AllPlain(c) && AllPlain(l)
    ensures cn == ln <==> SameChain(c, l)
  {
    if |c| == |l| {
      forall i | 0 <= i < |c| ensures cn[i] == ln[i] <==> SameEndpoint(c[i], l[i]) {
        NodeIff(c[i], l[i]);
      }
    }
  }

  lemma SameNodesOfChains(x: seq<Route>, y: seq<Route>, a: string)
    requires AllPlain(ChainOf(x, a)) && AllPlain(ChainOf(y, a))
    ensures Nodes(ChainOf(x, a)) == Nodes(ChainOf(y, a)) <==> SameChain(ChainOf(x, a), ChainOf(y, a))
  {
    NodesOfChain(x, a);
    NodesOfChain(y, a);
    SameNodes(ChainOf(x, a), ChainOf(y, a), Nodes(ChainOf(x, a)), Nodes(ChainOf(y, a)));
  }

  lemma SameLevel(c: seq<string>, l: seq<string>)
    ensures Compare(c, l) == L0 <==> c == l
  {
  }

  /** A name is taken for the same on both sides if and only if its chains have the same endpoints in the same
      order. */
  lemma SameNodesIff(x: Sides, a: string)
    requires AllPlain(ChainOf(x.centerRoutes, a)) && AllPlain(ChainOf(x.localRoutes, a))
    ensures LevelOf(x, a) == L0 <==> SameChain(ChainOf(x.centerRoutes, a), ChainOf(x.localRoutes, a))
  {
    SameNodesOfChains(x.centerRoutes, x.localRoutes, a);
    SameLevel(Nodes(ChainOf(x.centerRoutes, a)), Nodes(ChainOf(x.localRoutes, a)));
  }

  // ---------- What the merge keeps ----------

  /** The nodes of one chain occur, in order, on the other. */
  ghost predicate Inside(short: seq<Route>, long: seq<Route>) {
    Embeds(Nodes(short), Nodes(long))
  }

  ghost predicate HasChain(m: Bundle, a: string, chain: seq<Route>) {
    OfAlias(m.routes, a) == Renumber(chain)
  }

  /** A name that both sides have: if the local chain lies inside the center's, the center's row and chain stay;
      otherwise, if the center's lies inside the local one, the local ones; otherwise both, the local ones
      under a new name. */
  lemma CommonName(center: Bundle, local: Bundle, rule: Rule, a: string)
    requires Valid(center) && Valid(local) && Valid(Merged(center, local, rule))
    requires a in KeysOf(center.lapis, LapiKey) && a in KeysOf(local.lapis, LapiKey)
    ensures
      var c, l := ChainOf(center.routes, a), ChainOf(local.routes, a);
      var x, m, n := SidesFor(center, local, rule), Merged(center, local, rule), LapiProofs.NewName(a);
      && a in x.center && a in x.local && x.center[a] in center.lapis && x.local[a] in local.lapis
      && (Inside(l, c) ==> x.center[a] in m.lapis && HasChain(m, a, c))
      && (Inside(c, l) && !Inside(l, c) ==> x.local[a] in m.lapis && HasChain(m, a, l))
      && (!Inside(c, l) && !Inside(l, c) ==>
            && x.center[a] in m.lapis && HasChain(m, a, c)
            && x.local[a].(alias := n) in m.lapis && HasChain(m, n, As(l, n)))
  {
    var x := SidesFor(center, local, rule);
    LapiTableIs(center.lapis);
    LapiTableIs(local.lapis);
    ChainsFromOneSide(center, local, rule, a);
    LevelMeans(Nodes(ChainOf(center.routes, a)), Nodes(ChainOf(local.routes, a)));
  }

  lemma LevelMeans(c: seq<string>, l: seq<string>)
    ensures Embeds(l, c) <==> Compare(c, l) == L0 || Compare(c, l) == L2c
    ensures Embeds(c, l) && !Embeds(l, c) <==> Compare(c, l) == L2l
  {
    SelfEmbeds(c);
    if |c| == |l| {
      if Embeds(l, c) {
        EqualLengthEmbeds(l, c);
      }
      if Embeds(c, l) {
        EqualLengthEmbeds(c, l);
      }
    }
  }

  lemma SelfEmbeds(c: seq<string>)
    ensures Embeds(c, c)
  {
    assert Embedding(c, c, seq(|c|, i => i));
  }

  /** Two chains of one length that differ in an endpoint, on addresses without a hash: the name is never taken
      for the same, and both chains are in the result. */
  lemma DifferentChainsKept(center: Bundle, local: Bundle, rule: Rule, a: string, i: nat)
    requires Valid(center) && Valid(local) && Valid(Merged(center, local, rule))
    requires a in KeysOf(center.lapis, LapiKey) && a in KeysOf(local.lapis, LapiKey)
    requires
      var c, l := ChainOf(center.routes, a), ChainOf(local.routes, a);
      |c| == |l| && i < |c| && Plain(c[i]) && Plain(l[i]) && !SameEndpoint(c[i], l[i])
    ensures LevelOf(SidesFor(center, local, rule), a) in {L1, L3}
    ensures
      var m, n := Merged(center, local, rule), LapiProofs.NewName(a);
      HasChain(m, a, ChainOf(center.routes, a)) && HasChain(m, n, As(ChainOf(local.routes, a), n))
  {
    var c, l := ChainOf(center.routes, a), ChainOf(local.routes, a);
    NodesOfChain(center.routes, a);
    NodesOfChain(local.routes, a);
    NodeIff(c[i], l[i]);
    assert Nodes(c)[i] != Nodes(l)[i];
    if Inside(l, c) {
      EqualLengthEmbeds(Nodes(l), Nodes(c));
    }
    if Inside(c, l) {
      EqualLengthEmbeds(Nodes(c), Nodes(l));
    }
    LevelMeans(Nodes(c), Nodes(l));
    CommonName(center, local, rule, a);
  }
}
