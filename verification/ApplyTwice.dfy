/** Applying a snapshot again: which credentials are found and which are stored a second time. */
module ApplyTwice {
  import opened Folds
  import opened Bundle
  import opened Tables
  import opened Names
  import opened BundleMerge
  import opened Upserts
  import opened Store
  import opened ApplyBundle
  import opened ApplyTransaction
  import opened ApplyTheorems

  /** A row with this hash belongs to a platform that stays. */
  ghost predicate KnownOn(t: Table<CredentialRow>, plats: set<int>, h: string) {
    exists id :: HasRow(CredentialsOf(t, plats).rows, CredentialRowKey, h, id)
  }

  /** The row of a listed credential: it has no hash when it has no token and was not known. */
  lemma RowOf(rows: seq<Credential>, hash: string -> string, before: Table<CredentialRow>, plats: set<int>,
      after: Table<CredentialRow>, platforms: map<string, int>, ids: map<string, int>, c: Credential)
    requires CredentialRun(rows, hash, before, plats, after, platforms, ids) && c in rows
    ensures CredKey(c) in ids && ids[CredKey(c)] in after.rows
    ensures
      var h := if c.token == "" && !KnownOn(before, plats, CredKey(c)) then None else Some(CredKey(c));
      after.rows[ids[CredKey(c)]] == CredentialRow(platforms[c.platformBaseURL], h, c, 0)
    ensures KnownOn(before, plats, CredKey(c)) <==> ids[CredKey(c)] in CredentialsOf(before, plats).rows
  {
    CredentialItemsGood(rows, platforms, hash);
    CredentialKeys(rows, hash, platforms);
    var it := CredentialItem(c, platforms, hash);
    assert it in CredentialItems(rows, platforms, hash) && it.k == CredKey(c);
    assert CredKey(c) in KeysOf(rows, CredKey);
    assert KeyOrNone(CredentialRowKey, after.rows[ids[it.k]], it.k);
    if KnownOn(before, plats, it.k) {
      var id :| HasRow(CredentialsOf(before, plats).rows, CredentialRowKey, it.k, id);
      assert ids[it.k] == id;
    } else {
      assert !HasRow(CredentialsOf(before, plats).rows, CredentialRowKey, it.k, ids[it.k]);
    }
  }

  /** No other row has the hash of a row without one. */
  lemma StillUnknown(rows: seq<Credential>, hash: string -> string, before: Table<CredentialRow>, plats: set<int>,
      after: Table<CredentialRow>, platforms: map<string, int>, ids: map<string, int>, h: string, plats2: set<int>)
    requires CredentialRun(rows, hash, before, plats, after, platforms, ids)
    requires h in ids && ids[h] in after.rows && after.rows[ids[h]].tokenHash == None
    ensures !KnownOn(CredentialsReset(after), plats2, h)
  {
    forall k | k in ids ensures !HasRow(after.rows, CredentialRowKey, h, ids[k]) {
      assert KeyOrNone(CredentialRowKey, after.rows[ids[k]], k);
    }
    forall id ensures !HasRow(CredentialsOf(CredentialsReset(after), plats2).rows, CredentialRowKey, h, id) {
      assert id in after.rows ==> id in ids.Values || id in Unhashed(CredentialsOf(before, plats).rows);
    }
  }

  ghost predicate HasCredential(t: Table<CredentialRow>, id: int, c: Credential) {
    id in t.rows && t.rows[id].c == c
  }

  lemma StaysBehind(rows: seq<Credential>, hash: string -> string, before: Table<CredentialRow>, plats: set<int>,
      after: Table<CredentialRow>, platforms: map<string, int>, ids: map<string, int>, id: int)
    requires CredentialRun(rows, hash, before, plats, after, platforms, ids)
    requires id in before.rows && before.rows[id].tokenHash == None && before.rows[id].platformID in plats
    ensures id in after.rows && after.rows[id] == before.rows[id] && id in CredentialsOf(before, plats).rows
  {
    assert id in Unhashed(CredentialsOf(before, plats).rows);
  }

  /** Two runs over the same rows find the same row exactly when the first one has stored its hash. */
  lemma SameRowIff(rows: seq<Credential>, hash: string -> string, c: Credential,
      t0: Table<CredentialRow>, plats1: set<int>, t1: Table<CredentialRow>, platforms1: map<string, int>,
      ids1: map<string, int>, plats2: set<int>, t2: Table<CredentialRow>, platforms2: map<string, int>,
      ids2: map<string, int>)
    requires CredentialRun(rows, hash, t0, plats1, t1, platforms1, ids1)
    requires CredentialRun(rows, hash, CredentialsReset(t1), plats2, t2, platforms2, ids2)
    requires c in rows && c.platformBaseURL in platforms1 && platforms1[c.platformBaseURL] in plats2
    ensures CredKey(c) in ids1 && CredKey(c) in ids2
    ensures HasCredential(t2, ids1[CredKey(c)], c) && HasCredential(t2, ids2[CredKey(c)], c)
    ensures ids1[CredKey(c)] == ids2[CredKey(c)] <==> c.token != "" || KnownOn(t0, plats1, CredKey(c))
  {
    var k, again := CredKey(c), CredentialsReset(t1);
    RowOf(rows, hash, t0, plats1, t1, platforms1, ids1, c);
    RowOf(rows, hash, again, plats2, t2, platforms2, ids2, c);
    if c.token != "" || KnownOn(t0, plats1, k) {
      assert HasRow(CredentialsOf(again, plats2).rows, CredentialRowKey, k, ids1[k]);
    } else {
      StillUnknown(rows, hash, t0, plats1, t1, platforms1, ids1, k, plats2);
      StaysBehind(rows, hash, again, plats2, t2, platforms2, ids2, ids1[k]);
    }
  }

  /** A stored credential with this hash is on a platform that the snapshot lists. */
  ghost predicate Survives(before: Db, b: Bundle, h: string) {
    exists id :: SurvivesAs(before, b, h, id)
  }

  ghost predicate SurvivesAs(before: Db, b: Bundle, h: string, id: int) {
    && id in before.credentials.rows && before.credentials.rows[id].tokenHash == Some(h)
    && Listed(before, b, before.credentials.rows[id].platformID)
  }

  ghost predicate Listed(before: Db, b: Bundle, pid: int) {
    pid in before.platforms.rows && before.platforms.rows[pid].p.baseURL in KeysOf(b.platforms, PlatformKey)
  }

  lemma MirrorStaysIff(rows: seq<Platform>, before: Table<PlatformRow>, after: Table<PlatformRow>,
      ids: map<string, int>, pid: int)
    requires AllGood(rows, GoodPlatform) && ids.Keys == KeysOf(rows, PlatformKey) && pid in before.rows
    requires Mirrors(before, after, PlatformRowKey, Items(rows, PlatformItem), ids)
    ensures pid in after.rows <==> before.rows[pid].p.baseURL in KeysOf(rows, PlatformKey)
  {
    var base := before.rows[pid].p.baseURL;
    if pid in after.rows {
      var u :| u in ids && ids[u] == pid;
      assert HasRow(before.rows, PlatformRowKey, u, pid);
    }
    if base in ids {
      assert HasRow(before.rows, PlatformRowKey, base, pid);
      assert ids[base] == pid;
    }
  }

  /** A platform stays exactly when its address is listed. */
  lemma PlatformStaysIff(b: Bundle, hash: string -> string, before: Db, st: Stages, ids: Ids, lapis: map<string, int>,
      pid: int)
    requires Valid(b) && Staged(b, hash, before, st, ids, lapis) && pid in before.platforms.rows
    ensures pid in st.platforms.platforms.rows <==>
      before.platforms.rows[pid].p.baseURL in KeysOf(b.platforms, PlatformKey)
  {
    PlatformStageIs(b, before, st.platforms, ids.platforms);
    MirrorStaysIff(b.platforms, before.platforms, st.platforms.platforms, ids.platforms, pid);
  }

  lemma KnownOnIff(before: Db, b: Bundle, plats: set<int>, h: string)
    requires Linked(before)
    requires forall pid :: pid in before.platforms.rows ==> (pid in plats <==> Listed(before, b, pid))
    ensures KnownOn(before.credentials, plats, h) <==> Survives(before, b, h)
  {
    forall id
      ensures HasRow(CredentialsOf(before.credentials, plats).rows, CredentialRowKey, h, id) <==>
        SurvivesAs(before, b, h, id)
    {
    }
  }

  lemma SurvivesIff(b: Bundle, hash: string -> string, before: Db, st: Stages, ids: Ids, lapis: map<string, int>,
      h: string)
    requires Valid(b) && Consistent(before) && Staged(b, hash, before, st, ids, lapis)
    ensures KnownOn(before.credentials, st.platforms.platforms.rows.Keys, h) <==> Survives(before, b, h)
  {
    forall pid | pid in before.platforms.rows
      ensures pid in st.platforms.platforms.rows <==> Listed(before, b, pid)
    {
      PlatformStaysIff(b, hash, before, st, ids, lapis, pid);
    }
    KnownOnIff(before, b, st.platforms.platforms.rows.Keys, h);
  }

  lemma PlatformStays(b: Bundle, hash: string -> string, before: Db, st1: Stages, ids1: Ids, lapis1: map<string, int>,
      mid: Db, v1: int, st2: Stages, ids2: Ids, lapis2: map<string, int>, after: Db, v2: int, base: string)
    requires Commits(b, hash, before, st1, ids1, lapis1, mid, v1) && Commits(b, hash, mid, st2, ids2, lapis2, after, v2)
    requires base in KeysOf(b.platforms, PlatformKey)
    ensures base in ids1.platforms && ids1.platforms[base] in st2.lapis.platforms.rows
  {
    NamesAndPlatformsKept(b, hash, before, st1, ids1, lapis1, mid, v1);
    NamesAndPlatformsKept(b, hash, mid, st2, ids2, lapis2, after, v2);
    ResetKeys(st2.lapis);
    var p :| p in b.platforms && PlatformKey(p) == base;
    assert mid.platforms.rows[ids1.platforms[base]].p == p;
    assert ids2.platforms[base] in ids2.platforms.Values;
  }

  lemma SamePlatforms(b: Bundle, hash: string -> string, before: Db, st: Stages, ids: Ids, lapis: map<string, int>)
    requires Valid(b) && Staged(b, hash, before, st, ids, lapis)
    ensures st.lapis.platforms == st.platforms.platforms
  {
    CredentialStageIs(b, hash, st.platforms, st.credentials, ids.platforms, ids.credentials);
    RapiStageIs(b, st.credentials, st.rapis, ids.platforms, ids.rapis);
    LapiStageIs(b, st.bound, st.lapis, lapis);
  }

  /** Committing a snapshot twice finds the row of a listed credential again exactly when it has a token or
      its hash was already stored on a platform that stays. Otherwise the first row has no hash: it stays
      behind and another one is added. */
  lemma SecondCommitFindsIff(b: Bundle, hash: string -> string, before: Db, st1: Stages, ids1: Ids,
      lapis1: map<string, int>, mid: Db, v1: int, st2: Stages, ids2: Ids, lapis2: map<string, int>, after: Db, v2: int,
      c: Credential)
    requires Commits(b, hash, before, st1, ids1, lapis1, mid, v1) && Commits(b, hash, mid, st2, ids2, lapis2, after, v2)
    requires c in b.credentials
    ensures CredKey(c) in ids1.credentials && CredKey(c) in ids2.credentials
    ensures HasCredential(after.credentials, ids1.credentials[CredKey(c)], c)
    ensures HasCredential(after.credentials, ids2.credentials[CredKey(c)], c)
    ensures ids1.credentials[CredKey(c)] == ids2.credentials[CredKey(c)] <==>
      c.token != "" || Survives(before, b, CredKey(c))
  {
    CredentialChain(b, hash, before, st1, ids1, lapis1);
    CredentialChain(b, hash, mid, st2, ids2, lapis2);
    PlatformStays(b, hash, before, st1, ids1, lapis1, mid, v1, st2, ids2, lapis2, after, v2, c.platformBaseURL);
    SamePlatforms(b, hash, before, st1, ids1, lapis1);
    SurvivesIff(b, hash, before, st1, ids1, lapis1, CredKey(c));
    SameRowIff(b.credentials, hash, c,
      before.credentials, st1.lapis.platforms.rows.Keys, st1.lapis.credentials, ids1.platforms, ids1.credentials,
      st2.lapis.platforms.rows.Keys, st2.lapis.credentials, ids2.platforms, ids2.credentials);
    ResetKeys(st2.lapis);
  }

  /** A row without a hash that was there before, on a platform that stays. */
  ghost predicate KeptUnhashed(before: Db, b: Bundle) {
    exists id :: id in before.credentials.rows && before.credentials.rows[id].tokenHash == None
      && Listed(before, b, before.credentials.rows[id].platformID)
  }

  /** A listed credential without a token whose hash is not stored on a platform that stays. */
  ghost predicate AddsUnhashed(before: Db, b: Bundle) {
    exists c :: c in b.credentials && c.token == "" && !Survives(before, b, CredKey(c))
  }

  ghost predicate RunAddsUnhashed(rows: seq<Credential>, before: Table<CredentialRow>, plats: set<int>) {
    exists c :: c in rows && c.token == "" && !KnownOn(before, plats, CredKey(c))
  }

  lemma UnhashedRunIff(rows: seq<Credential>, hash: string -> string, before: Table<CredentialRow>, plats: set<int>,
      after: Table<CredentialRow>, platforms: map<string, int>, ids: map<string, int>)
    requires CredentialRun(rows, hash, before, plats, after, platforms, ids)
    ensures Unhashed(after.rows) != {} <==>
      Unhashed(CredentialsOf(before, plats).rows) != {} || RunAddsUnhashed(rows, before, plats)
  {
    CredentialKeys(rows, hash, platforms);
    forall c | c in rows
      ensures CredKey(c) in ids && ids[CredKey(c)] in after.rows
      ensures ids[CredKey(c)] in Unhashed(after.rows) <==> c.token == "" && !KnownOn(before, plats, CredKey(c))
    {
      RowOf(rows, hash, before, plats, after, platforms, ids, c);
    }
    var kept := Unhashed(CredentialsOf(before, plats).rows);
    if kept != {} {
      var id := Member(kept);
      assert id in Unhashed(after.rows);
    }
    if RunAddsUnhashed(rows, before, plats) {
      var c :| c in rows && c.token == "" && !KnownOn(before, plats, CredKey(c));
      assert ids[CredKey(c)] in Unhashed(after.rows);
    }
    if Unhashed(after.rows) != {} && kept == {} {
      var id := Member(Unhashed(after.rows));
      assert id in ids.Values;
      var k :| k in ids && ids[k] == id;
      var c :| c in rows && CredKey(c) == k;
    }
  }

  /** A commit leaves rows without a hash exactly when it keeps one or adds one. */
  lemma UnhashedLeftIff(b: Bundle, hash: string -> string, before: Db, st: Stages, ids: Ids, lapis: map<string, int>,
      after: Db, version: int)
    requires Commits(b, hash, before, st, ids, lapis, after, version)
    ensures Unhashed(after.credentials.rows) != {} <==> KeptUnhashed(before, b) || AddsUnhashed(before, b)
  {
    var plats := st.platforms.platforms.rows.Keys;
    CredentialChain(b, hash, before, st, ids, lapis);
    SamePlatforms(b, hash, before, st, ids, lapis);
    UnhashedRunIff(b.credentials, hash, before.credentials, plats, st.lapis.credentials, ids.platforms,
      ids.credentials);
    ResetUnhashed(st.lapis.credentials);
    forall pid | pid in before.platforms.rows ensures pid in plats <==> Listed(before, b, pid) {
      PlatformStaysIff(b, hash, before, st, ids, lapis, pid);
    }
    UnhashedIff(before, b, plats);
  }

  lemma ResetUnhashed(t: Table<CredentialRow>)
    ensures Unhashed(CredentialsReset(t).rows) == Unhashed(t.rows)
  {
  }

  lemma UnhashedIff(before: Db, b: Bundle, plats: set<int>)
    requires Linked(before)
    requires forall pid :: pid in before.platforms.rows ==> (pid in plats <==> Listed(before, b, pid))
    ensures Unhashed(CredentialsOf(before.credentials, plats).rows) != {} <==> KeptUnhashed(before, b)
    ensures RunAddsUnhashed(b.credentials, before.credentials, plats) <==> AddsUnhashed(before, b)
  {
    var kept := Unhashed(CredentialsOf(before.credentials, plats).rows);
    if kept != {} {
      var id := Member(kept);
      assert Listed(before, b, before.credentials.rows[id].platformID);
    }
    if KeptUnhashed(before, b) {
      var id :| id in before.credentials.rows && before.credentials.rows[id].tokenHash == None
        && Listed(before, b, before.credentials.rows[id].platformID);
      assert id in kept;
    }
    forall c | c in b.credentials
      ensures KnownOn(before.credentials, plats, CredKey(c)) <==> Survives(before, b, CredKey(c))
    {
      KnownOnIff(before, b, plats, CredKey(c));
    }
  }

  // ---------- Two commits ----------

  const BLANK_CREDENTIAL := Credential("h", "p", 0, "", "", true, Never, false)

  const BLANK_SNAPSHOT :=
    Bundle([Platform("p", "", "", Never, true, "", "", "", "", "", 0)], [BLANK_CREDENTIAL], [], [], [], [])

  lemma BlankCommittable(hash: string -> string, canEncrypt: bool)
    ensures Committable(BLANK_SNAPSHOT, hash, canEncrypt)
  {
    assert Trim("h") == "h";
    assert PlatformKey(BLANK_SNAPSHOT.platforms[0]) == "p";
    assert BLANK_SNAPSHOT.platforms[0] in BLANK_SNAPSHOT.platforms;
    assert "p" in KeysOf(BLANK_SNAPSHOT.platforms, PlatformKey);
  }

  const EMPTY_DB :=
    Db(Table(map[], 1), Table(map[], 1), Table(map[], 1), Table(map[], 1), map[], map[], map[], 0, 0)

  lemma BlankStoredTwice(hash: string -> string, st1: Stages, ids1: Ids, lapis1: map<string, int>, mid: Db, v1: int,
      st2: Stages, ids2: Ids, lapis2: map<string, int>, after: Db, v2: int)
    requires Commits(BLANK_SNAPSHOT, hash, EMPTY_DB, st1, ids1, lapis1, mid, v1)
    requires Commits(BLANK_SNAPSHOT, hash, mid, st2, ids2, lapis2, after, v2)
    ensures HeldTwice(after.credentials, BLANK_CREDENTIAL)
  {
    assert BLANK_SNAPSHOT.credentials[0] in BLANK_SNAPSHOT.credentials;
    SecondCommitFindsIff(BLANK_SNAPSHOT, hash, EMPTY_DB, st1, ids1, lapis1, mid, v1, st2, ids2, lapis2, after, v2,
                         BLANK_CREDENTIAL);
    assert !Survives(EMPTY_DB, BLANK_SNAPSHOT, CredKey(BLANK_CREDENTIAL));
  }

  ghost predicate HeldTwice(t: Table<CredentialRow>, c: Credential) {
    exists i, j :: i != j && HasCredential(t, i, c) && HasCredential(t, j, c)
  }

  method CommitTwice(before: Db, b: Bundle, hash: string -> string, canEncrypt: bool)
    returns (mid: Db, after: Db, ghost st1: Stages, ghost ids1: Ids, ghost lapis1: map<string, int>,
      ghost st2: Stages, ghost ids2: Ids, ghost lapis2: map<string, int>)
    requires Consistent(before) && Committable(b, hash, canEncrypt)
    ensures Consistent(mid) && mid.lastGood == 1 && Consistent(after) && after.lastGood == 2
    ensures Commits(b, hash, before, st1, ids1, lapis1, mid, 1) && Commits(b, hash, mid, st2, ids2, lapis2, after, 2)
  {
    var d := new Database(before);
    var ok;
    ok, st1, ids1, lapis1 := d.ApplyBundle(b, 1, hash, canEncrypt);
    mid := d.db;
    ok, st2, ids2, lapis2 := d.ApplyBundle(b, 2, hash, canEncrypt);
    after := d.db;
  }

  /** An empty database to which a credential without a token is applied twice. */
  method ApplyBlankTwice(hash: string -> string, canEncrypt: bool) returns (table: Table<CredentialRow>)
    ensures HeldTwice(table, BLANK_CREDENTIAL)
  {
    BlankCommittable(hash, canEncrypt);
    var mid, after, st1, ids1, lapis1, st2, ids2, lapis2 := CommitTwice(EMPTY_DB, BLANK_SNAPSHOT, hash, canEncrypt);
    BlankStoredTwice(hash, st1, ids1, lapis1, mid, 1, st2, ids2, lapis2, after, 2);
    table := after.credentials;
  }
}
