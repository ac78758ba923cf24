/** Valid snapshots that the two merges cannot combine. */
module MergeWitnesses {
  import opened Folds
  import opened Bundle
  import opened Tables
  import opened Names
  import opened ChainCompare
  import opened Chains
  import opened LapiMerge
  import opened BundleMerge
  import opened MergeTheorems
  import opened ApplyMerged
  import LapiProofs
  import SyncMerge

  const NO_LIMITS := Limits(0, 0, 0, 0, 0, 0)

  const PLATFORM := Platform("p", "", "", Never, true, "", "", "", "", "", 0)

  function EndpointFor(model: string): RAPI {
    RAPI("p", model, "", true, 0, 0, NO_LIMITS, "", "", "", "", "", "", "", "", "", "", 0)
  }

  function Name(a: string): LAPI {
    LAPI(a, "", true, "", "", "", "", "")
  }

  function CredentialFor(hash: string): Credential {
    Credential(hash, "p", 0, "", "", true, Never, false)
  }

  /** One platform, one endpoint, and the name "a" routed to it. */
  function Snapshot(model: string, names: seq<LAPI>, credentials: seq<Credential>): Bundle {
    Bundle([PLATFORM], credentials, [EndpointFor(model)], names, [Route("a", "p", model, 0)], [])
  }

  lemma SnapshotValid(model: string, names: seq<LAPI>, credentials: seq<Credential>)
    requires Trim(model) != "" && Name("a") in names && AllGood(names, GoodLapi) && UniqueKeys(names, LapiKey)
    requires UniqueKeys(credentials, CredKey)
    requires forall c :: c in credentials ==> Trim(c.tokenHash) != "" && c.platformBaseURL == "p"
    ensures Valid(Snapshot(model, names, credentials))
  {
    var b := Snapshot(model, names, credentials);
    assert b.platforms[0] in b.platforms && PlatformKey(PLATFORM) == "p";
    assert "p" in KeysOf(b.platforms, PlatformKey);
    assert b.rapis[0] in b.rapis && RapiKey(EndpointFor(model)) == EndpointKey("p", model);
    assert EndpointKey("p", model) in KeysOf(b.rapis, RapiKey);
    assert LapiKey(Name("a")) == "a" && "a" in KeysOf(b.lapis, LapiKey);
  }

  lemma NotBlank()
    ensures Trim("m") == "m" && Trim("n") == "n" && Trim("a") == "a" && Trim("h") == "h" && Trim(" h") == "h"
  {
    assert TrimLeft(" h") == TrimLeft("h") by {
      assert " h"[1..] == "h";
    }
  }

  // ---------- A name that is already a new name ----------

  const CENTER := Snapshot("m", [Name("a")], [])

  const LOCAL := Snapshot("n", [Name("a"), Name("a#local2")], [])

  lemma OtherNode(u: string, m: string, n: string)
    requires CanonicalNode(u, m) == CanonicalNode(u, n)
    ensures m == n
  {
    var x := CanonicalNode(u, "");
    assert CanonicalNode(u, m) == x + m && CanonicalNode(u, n) == x + n;
    assert (x + m)[|x|..] == m && (x + n)[|x|..] == n;
  }

  lemma OnlyNode(model: string)
    ensures Nodes(ChainOf([Route("a", "p", model, 0)], "a")) == [CanonicalNode("p", model)]
  {
    var o := Route("a", "p", model, 0);
    assert [o][..0] == [];
    assert OfAlias([o], "a") == [o];
    assert SortStable([o]) == [o];
  }

  lemma CenterAndLocalValid()
    ensures Valid(CENTER) && Valid(LOCAL)
  {
    NotBlank();
    NewNameNotBlank("a");
    NewNameIs();
    SnapshotValid("m", [Name("a")], []);
    SnapshotValid("n", [Name("a"), Name("a#local2")], []);
  }

  lemma NewNameIs()
    ensures LapiProofs.NewName("a") == "a#local2"
  {
    assert Decimal(2) == "2";
  }

  /** Both snapshots are valid, the name "a" leads to different endpoints, and the edge already has the
      name that its "a" would get: the merge fails under either rule. */
  lemma MergeFails(rule: Rule)
    ensures Valid(CENTER) && Valid(LOCAL) && !Valid(Merged(CENTER, LOCAL, rule))
  {
    CenterAndLocalValid();
    NewNameIs();
    var x := SidesFor(CENTER, LOCAL, rule);
    OnlyNode("m");
    OnlyNode("n");
    if CanonicalNode("p", "m") == CanonicalNode("p", "n") {
      OtherNode("p", "m", "n");
      assert false;
    }
    var c, l := [CanonicalNode("p", "m")], [CanonicalNode("p", "n")];
    if Embeds(l, c) {
      EqualLengthEmbeds(l, c);
    }
    if Embeds(c, l) {
      EqualLengthEmbeds(c, l);
    }
    LapiTableIs(CENTER.lapis);
    LapiTableIs(LOCAL.lapis);
    assert CENTER.lapis[0] in CENTER.lapis && LOCAL.lapis[0] in LOCAL.lapis && LOCAL.lapis[1] in LOCAL.lapis;
    assert LapiKey(Name("a")) == "a" && LapiKey(Name("a#local2")) == "a#local2";
    assert "a" in x.center && "a" in x.local && "a#local2" in x.local;
    assert Incomparable(x, "a");
    MergeSucceedsIff(CENTER, LOCAL, rule);
  }

  // ---------- Two chains that share an index ----------

  lemma SharedIndex()
    ensures
      var l, c := [Route("a", "p", "n", 0)], [Route("a", "p", "m", 0)];
      && DistinctOrder(l) && DistinctOrder(c)
      && !DistinctOrder(SyncMerge.UnionRows(l, c, KeyOfRoute))
  {
    var l, c := [Route("a", "p", "n", 0)], [Route("a", "p", "m", 0)];
    assert l[0] in l && c[0] in c && KeyOfRoute(c[0]) != KeyOfRoute(l[0]);
    assert KeyOfRoute(c[0]) !in KeysOf(l, KeyOfRoute);
    assert SyncMerge.TakesUsedIndex(l, c);
    SyncMerge.UnionDistinctOrderIff(l, c);
  }

  lemma NoCredentialsNoTwins(l: Bundle, c: Bundle)
    requires l.credentials == [] && l.bindings == []
    ensures !PaddedTwins(l, c)
  {
  }

  const LEFT := Snapshot("n", [Name("a")], [])

  const RIGHT := Snapshot("m", [Name("a")], [])

  lemma LeftAndRightValid()
    ensures Valid(LEFT) && Valid(RIGHT)
  {
    NotBlank();
    SnapshotValid("n", [Name("a")], []);
    SnapshotValid("m", [Name("a")], []);
  }

  /** The union of two valid snapshots is valid but routes "a" to both endpoints at index 0. */
  lemma UnionRepeatsIndex()
    ensures Valid(LEFT) && Valid(RIGHT) && DistinctOrder(LEFT.routes) && DistinctOrder(RIGHT.routes)
    ensures Valid(SyncMerge.UnionBundle(LEFT, RIGHT)) && !DistinctOrder(SyncMerge.UnionBundle(LEFT, RIGHT).routes)
  {
    LeftAndRightValid();
    NoCredentialsNoTwins(LEFT, RIGHT);
    UnionValidIff(LEFT, RIGHT);
    SharedIndex();
  }

  // ---------- A hash with and without blanks ----------

  /** The same hash with and without a leading blank: the union lists the credential twice. */
  lemma UnionRepeatsHash()
    ensures
      var l, c := Snapshot("m", [Name("a")], [CredentialFor("h")]), Snapshot("m", [Name("a")], [CredentialFor(" h")]);
      Valid(l) && Valid(c) && !Valid(SyncMerge.UnionBundle(l, c))
  {
    var h, g := CredentialFor("h"), CredentialFor(" h");
    var l, c := Snapshot("m", [Name("a")], [h]), Snapshot("m", [Name("a")], [g]);
    NotBlank();
    SnapshotValid("m", [Name("a")], [h]);
    SnapshotValid("m", [Name("a")], [g]);
    UnionValidIff(l, c);
    assert h in l.credentials && g in c.credentials;
    assert CredKey(h) == CredKey(g) && SyncMerge.CredentialHash(h) != SyncMerge.CredentialHash(g);
    assert Twins(l.credentials, c.credentials, SyncMerge.CredentialHash, CredKey);
  }
}
