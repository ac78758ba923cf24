/** One converted event may carry several frames: the converter joins them with NUL
    and the writer splits them again. */
module StreamFraming {
  import opened Folds

  const NUL: char := '\0'

  function Join(parts: seq<string>): string {
    if parts == [] then ""
    else if |parts| == 1 then parts[0]
    else Join(parts[..|parts| - 1]) + [NUL] + parts[|parts| - 1]
  }

  function Split(s: string): (r: seq<string>)
    ensures |r| >= 1
  {
    if s == "" then [""] else
    var pre, c := Split(s[..|s| - 1]), s[|s| - 1];
    if c == NUL then pre + [""] else pre[|pre| - 1 := pre[|pre| - 1] + [c]]
  }

  function NonEmpty(parts: seq<string>): seq<string> {
    if parts == [] then [] else
    NonEmpty(parts[..|parts| - 1]) + (if parts[|parts| - 1] == "" then [] else [parts[|parts| - 1]])
  }

  function Written(converted: string): seq<string> {
    if converted == "" then [] else if NUL in converted then NonEmpty(Split(converted)) else [converted]
  }

  /** The frames that reach the client for one converted event. */
  method WriteConverted(converted: string) returns (frames: seq<string>)
    ensures frames == Written(converted)
  {
    frames := [];
    if converted == "" {
      return;
    }
    if converted == "[DONE]" {
      return ["[DONE]"];
    }
    if NUL in converted {
      var parts := Split(converted);
      var i := 0;
      while i < |parts|
        invariant 0 <= i <= |parts|
        invariant frames == NonEmpty(parts[..i])
      {
        assert parts[..i + 1][..i] == parts[..i];
        if parts[i] != "" {
          frames := frames + [parts[i]];
        }
        i := i + 1;
      }
      assert parts[..i] == parts;
      return;
    }
    frames := [converted];
  }

  predicate Clean(part: string) {
    part != "" && '\0' !in part
  }

  lemma {:induction false} SplitFree(s: string)
    requires NUL !in s
    ensures Split(s) == [s]
  {
    if s != "" {
      SplitFree(s[..|s| - 1]);
      assert s == s[..|s| - 1] + [s[|s| - 1]];
    }
  }

  lemma {:induction false} SplitJoined(a: string, b: string)
    ensures Split(a + [NUL] + b) == Split(a) + Split(b)
  {
    var s := a + [NUL] + b;
    if b == "" {
      assert s[..|s| - 1] == a;
    } else {
      assert s[..|s| - 1] == a + [NUL] + b[..|b| - 1];
      SplitJoined(a, b[..|b| - 1]);
    }
  }

  lemma {:induction false} NonEmptyAppend(a: seq<string>, b: seq<string>)
    ensures NonEmpty(a + b) == NonEmpty(a) + NonEmpty(b)
  {
    if b == [] {
      assert a + b == a;
    } else {
      assert (a + b)[..|a + b| - 1] == a + b[..|b| - 1];
      NonEmptyAppend(a, b[..|b| - 1]);
    }
  }

  lemma NonEmptyOne(part: string)
    requires Clean(part)
    ensures NonEmpty(Split(part)) == [part]
  {
    SplitFree(part);
    assert [part][..0] == [];
  }

  lemma {:induction false} NonEmptySplitJoin(parts: seq<string>)
    requires parts != [] && forall p :: p in parts ==> Clean(p)
    ensures NonEmpty(Split(Join(parts))) == parts
  {
    var n := |parts| - 1;
    assert parts[n] in parts;
    NonEmptyOne(parts[n]);
    Snoc(parts);
    if n > 0 {
      var init := Join(parts[..n]);
      NonEmptySplitJoin(parts[..n]);
      SplitJoined(init, parts[n]);
      NonEmptyAppend(Split(init), Split(parts[n]));
      assert Join(parts) == init + [NUL] + parts[n];
    }
  }

  lemma {:induction false} SplitHasNoNul(s: string)
    ensures forall p :: p in Split(s) ==> NUL !in p
  {
    if s != "" {
      SplitHasNoNul(s[..|s| - 1]);
    }
  }

  lemma {:induction false} NonEmptyMembers(parts: seq<string>)
    ensures forall p :: p in NonEmpty(parts) <==> p in parts && p != ""
  {
    if parts != [] {
      NonEmptyMembers(parts[..|parts| - 1]);
      assert parts == parts[..|parts| - 1] + [parts[|parts| - 1]];
    }
  }

  lemma WrittenIsClean(converted: string)
    ensures forall p :: p in Written(converted) ==> Clean(p)
  {
    SplitHasNoNul(converted);
    NonEmptyMembers(Split(converted));
  }

  /** Joining and splitting loses nothing if and only if every part is a non-empty text
      without NUL, which printed JSON always is. */
  lemma FramesSurviveIff(parts: seq<string>)
    ensures Written(Join(parts)) == parts <==> forall p :: p in parts ==> Clean(p)
  {
    if forall p :: p in parts ==> Clean(p) {
      if parts != [] {
        NonEmptySplitJoin(parts);
        if NUL !in Join(parts) {
          SplitFree(Join(parts));
          assert NonEmpty([Join(parts)][..0]) == [];
        }
      }
    } else {
      WrittenIsClean(Join(parts));
    }
  }
}
