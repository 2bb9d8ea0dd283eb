/** The `plan` command's custom OS packages: the --packages flags followed by
    the comma-separated COOLPACK_PACKAGES value, de-duplicated in order and
    stored under `custom_packages`. */
module Packages {
  import opened GoStrings
  import opened PlanModel

  predicate NoDuplicates(s: seq<string>) {
    forall i, j :: 0 <= i < j < |s| ==> s[i] != s[j]
  }

  /** The trimmed, non-blank pieces, in order. */
  function TrimmedPieces(pieces: seq<string>): seq<string>
    decreases |pieces|
  {
    if pieces == [] then []
    else
      var init := TrimmedPieces(pieces[..|pieces| - 1]);
      var p := TrimSpace(pieces[|pieces| - 1]);
      if p != "" then init + [p] else init
  }

  /** One more piece adds its trimmed text, unless that is blank. */
  lemma TrimmedPiecesStep(pieces: seq<string>, i: nat)
    requires i < |pieces|
    ensures TrimSpace(pieces[i]) != "" ==>
      TrimmedPieces(pieces[..i + 1]) == TrimmedPieces(pieces[..i]) + [TrimSpace(pieces[i])]
    ensures TrimSpace(pieces[i]) == "" ==> TrimmedPieces(pieces[..i + 1]) == TrimmedPieces(pieces[..i])
  {
    assert pieces[..i + 1][..i] == pieces[..i];
  }

  /** The packages named by the value of COOLPACK_PACKAGES. */
  function EnvPackages(value: string): seq<string> {
    if value == "" then [] else TrimmedPieces(Split(value, ','))
  }

  /** A package name as the environment can yield it. */
  predicate WellFormedName(p: string) {
    p != "" && ',' !in p && !IsSpace(p[0]) && !IsSpace(p[|p| - 1])
  }

  /** Every package taken from the environment is non-empty, holds no comma
      and has no surrounding white space. */
  lemma {:induction false} TrimmedPiecesWellFormed(pieces: seq<string>)
    requires forall p :: p in pieces ==> ',' !in p
    ensures forall p :: p in TrimmedPieces(pieces) ==> WellFormedName(p)
    decreases |pieces|
  {
    if pieces != [] {
      var last := pieces[|pieces| - 1];
      assert last in pieces;
      TrimSpaceContents(last);
      assert forall p :: p in pieces[..|pieces| - 1] ==> p in pieces;
      TrimmedPiecesWellFormed(pieces[..|pieces| - 1]);
    }
  }

  lemma EnvPackagesWellFormed(value: string)
    ensures forall p :: p in EnvPackages(value) ==> WellFormedName(p)
  {
    if value != "" {
      TrimmedPiecesWellFormed(Split(value, ','));
    }
  }

  /** Trimming keeps pieces that are non-empty and already trimmed. */
  lemma {:induction false} TrimmedPiecesOfTrimmed(pieces: seq<string>)
    requires forall i :: 0 <= i < |pieces| ==> pieces[i] != "" && TrimSpace(pieces[i]) == pieces[i]
    ensures TrimmedPieces(pieces) == pieces
    decreases |pieces|
  {
    if pieces != [] {
      var n := |pieces| - 1;
      TrimmedPiecesOfTrimmed(pieces[..n]);
      assert pieces[..n] + [pieces[n]] == pieces;
    }
  }

  /** A list of well-formed names survives being written as a comma-separated
      COOLPACK_PACKAGES value and read back. */
  lemma EnvPackagesOfJoin(names: seq<string>)
    requires forall p :: p in names ==> WellFormedName(p)
    ensures EnvPackages(Join(names, ',')) == names
  {
    if names != [] {
      var value := Join(names, ',');
      assert |value| >= |names[0]| > 0 by {
        assert names[0] in names;
        if |names| > 1 {
          assert value == names[0] + [','] + Join(names[1..], ',');
        }
      }
      JoinThenSplit(names, ',');
      forall i | 0 <= i < |names|
        ensures names[i] != "" && TrimSpace(names[i]) == names[i]
      {
        assert names[i] in names;
        TrimSpaceOfTrimmed(names[i]);
      }
      TrimmedPiecesOfTrimmed(names);
    }
  }

  /** The loop over the comma-separated pieces: each piece is trimmed and
      appended unless it is blank. */
  method AppendTrimmedPieces(collected: seq<string>, pieces: seq<string>) returns (result: seq<string>)
    ensures result == collected + TrimmedPieces(pieces)
  {
    result := collected;
    for i := 0 to |pieces|
      invariant result == collected + TrimmedPieces(pieces[..i])
    {
      var pkg := TrimSpace(pieces[i]);
      TrimmedPiecesStep(pieces, i);
      if pkg != "" {
        result := result + [pkg];
      }
    }
    assert pieces[..|pieces|] == pieces;
  }

  /** The collection step of applyCustomPackages: the CLI packages untouched
      and in order, then the environment's packages in order. */
  method CollectPackages(cli: seq<string>, envValue: string) returns (collected: seq<string>)
    ensures collected == cli + EnvPackages(envValue)
  {
    collected := [];
    if |cli| > 0 {
      collected := collected + cli;
    }
    assert collected == cli;
    if envValue != "" {
      collected := AppendTrimmedPieces(collected, Split(envValue, ','));
    }
  }

  /** First occurrences, in order of first appearance. */
  function Dedup(s: seq<string>): (r: seq<string>)
    ensures NoDuplicates(r)
    ensures forall x :: x in r <==> x in s
    ensures |r| <= |s|
    decreases |s|
  {
    if s == [] then []
    else
      var d := Dedup(s[..|s| - 1]);
      assert forall x :: x in s <==> x in s[..|s| - 1] || x == s[|s| - 1];
      if s[|s| - 1] in d then d else d + [s[|s| - 1]]
  }

  /** The position of the first occurrence of `x` in `s`. */
  function FirstIndex(s: seq<string>, x: string): (i: nat)
    requires x in s
    ensures i < |s| && s[i] == x
    ensures forall k :: 0 <= k < i ==> s[k] != x
  {
    if s[0] == x then 0 else 1 + FirstIndex(s[1..], x)
  }

  lemma FirstIndexInPrefix(s: seq<string>, n: nat, x: string)
    requires n <= |s| && x in s[..n]
    ensures FirstIndex(s, x) == FirstIndex(s[..n], x)
  {
    var i := FirstIndex(s, x);
    var j := FirstIndex(s[..n], x);
    assert s[..n][j] == s[j];
  }

  /** De-duplication keeps the first occurrence of each package: the packages
      of the result appear in the order of their first occurrence. */
  lemma {:induction false} DedupKeepsFirstOccurrenceOrder(s: seq<string>)
    ensures forall i, j :: 0 <= i < j < |Dedup(s)| ==> FirstIndex(s, Dedup(s)[i]) < FirstIndex(s, Dedup(s)[j])
    decreases |s|
  {
    if s != [] {
      var n := |s| - 1;
      var init := s[..n];
      var d := Dedup(init);
      DedupKeepsFirstOccurrenceOrder(init);
      forall i | 0 <= i < |d|
        ensures d[i] in init && d[i] in s && FirstIndex(s, d[i]) == FirstIndex(init, d[i]) < n
      {
        assert d[i] in d;
        FirstIndexInPrefix(s, n, d[i]);
      }
      if s[n] !in d {
        assert s[n] !in init;
        assert FirstIndex(s, s[n]) == n;
        assert Dedup(s) == d + [s[n]];
      } else {
        assert Dedup(s) == d;
      }
    }
  }

  /** A list that has no duplicates is left as it is. */
  lemma {:induction false} DedupOfDistinct(s: seq<string>)
    requires NoDuplicates(s)
    ensures Dedup(s) == s
    decreases |s|
  {
    if s != [] {
      var n := |s| - 1;
      DedupOfDistinct(s[..n]);
      assert s[n] !in s[..n];
      assert s[..n] + [s[n]] == s;
    }
  }

  /** De-duplicating twice is de-duplicating once. */
  lemma DedupIdempotent(s: seq<string>)
    ensures Dedup(Dedup(s)) == Dedup(s)
  {
    DedupOfDistinct(Dedup(s));
  }

  /** The de-duplication loop of applyCustomPackages, with its `seen` set. */
  method Deduplicate(packages: seq<string>) returns (unique: seq<string>)
    ensures unique == Dedup(packages)
    ensures NoDuplicates(unique)
    ensures forall p :: p in unique <==> p in packages
  {
    var seen: set<string> := {};
    unique := [];
    for i := 0 to |packages|
      invariant unique == Dedup(packages[..i])
      invariant forall p :: p in seen <==> p in unique
    {
      assert packages[..i + 1][..i] == packages[..i];
      var pkg := packages[i];
      if pkg !in seen {
        seen := seen + {pkg};
        unique := unique + [pkg];
      }
    }
    assert packages[..|packages|] == packages;
  }

  /** The metadata after the collected packages are stored: unchanged when
      nothing was collected, otherwise `custom_packages` holds every collected
      package once and nothing else, and no other key changes. */
  function WithCustomPackages(m: map<string, MetaValue>, collected: seq<string>)
    : (r: map<string, MetaValue>)
    ensures forall k :: k != CustomPackagesKey ==> At(r, k) == At(m, k)
    ensures collected == [] ==> r == m
    ensures collected != [] ==>
      && CustomPackagesKey in r && r[CustomPackagesKey].StrList?
      && NoDuplicates(r[CustomPackagesKey].items)
      && forall p :: p in r[CustomPackagesKey].items <==> p in collected
  {
    if collected == [] then m else m[CustomPackagesKey := StrList(Dedup(collected))]
  }

  /** applyCustomPackages: the metadata map is made non-nil; when nothing was
      collected nothing else changes; otherwise `custom_packages` is the
      de-duplicated collection and no other key changes. */
  method ApplyCustomPackages(plan: Plan, packages: seq<string>, env: Env)
    requires plan.Valid()
    modifies plan`Metadata, plan`HasMetadata
    ensures plan.Valid() && plan.HasMetadata
    ensures plan.Metadata ==
      WithCustomPackages(old(plan.Metadata), packages + EnvPackages(Getenv(env, PackagesVar)))
  {
    plan.EnsureMetadata();

    var collected := CollectPackages(packages, Getenv(env, PackagesVar));
    if |collected| == 0 {
      return;
    }

    var unique := Deduplicate(collected);
    plan.Metadata := plan.Metadata[CustomPackagesKey := StrList(unique)];
  }
}
