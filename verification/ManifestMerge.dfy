/** Merging two update manifests (scripts/lib/update-manifest.ts:188-237). */
module ManifestMerge {
  import opened Prelude
  import opened Text
  import opened UpdateManifest

  datatype MergeError = DifferentVersions | ConflictingFile(url: string) | ConflictingExtra

  // ----- release dates are compared as texts -----

  function Later(a: string, b: string): string {
    if LexLe(b, a) then a else b
  }

  lemma LaterLaws(a: string, b: string, c: string)
    ensures Later(a, b) == Later(b, a) && Later(a, a) == a
    ensures Later(Later(a, b), c) == Later(a, Later(b, c))
  {
    LexLeTotal(a, a);
    LexLeTotal(a, b);
    LexLeTotal(b, c);
    LexLeTotal(a, c);
    if LexLe(a, b) && LexLe(b, c) {
      LexLeTransitive(a, b, c);
    }
    if LexLe(c, b) && LexLe(b, a) {
      LexLeTransitive(c, b, a);
    }
  }

  // ----- files, by url, in the order of their first appearance -----

  predicate Clashes(files: seq<File>, f: File) {
    exists i :: 0 <= i < |files| && files[i].url == f.url && files[i] != f
  }

  function Insert(merged: seq<File>, f: File): Option<seq<File>> {
    if Clashes(merged, f) then None
    else if f in merged then Some(merged)
    else Some(merged + [f])
  }

  function MergeFiles(files: seq<File>): Option<seq<File>> {
    if files == [] then Some([])
    else
      match MergeFiles(files[..|files| - 1])
      case None => None
      case Some(merged) => Insert(merged, files[|files| - 1])
  }

  ghost predicate Agree(a: File, b: File) {
    a.url == b.url ==> a == b
  }

  /** No url stands for two different files. */
  ghost predicate Consistent(files: seq<File>) {
    forall f, g :: f in files && g in files ==> Agree(f, g)
  }

  ghost predicate DistinctUrls(files: seq<File>) {
    forall i, j :: 0 <= i < j < |files| ==> files[i].url != files[j].url
  }

  /** Files merge exactly when they are consistent; the result holds the same files, each
      url once. */
  lemma {:induction false} MergeFilesIff(files: seq<File>)
    ensures MergeFiles(files).Some? <==> Consistent(files)
    ensures MergeFiles(files).Some? ==>
      && (forall f :: f in MergeFiles(files).value <==> f in files)
      && DistinctUrls(MergeFiles(files).value)
  {
    if files != [] {
      var front, last := files[..|files| - 1], files[|files| - 1];
      assert files == front + [last];
      assert forall f :: f in files <==> f in front || f == last;
      MergeFilesIff(front);
      if Consistent(files) {
        assert Consistent(front);
      }
      if Consistent(front) {
        InsertIff(front, MergeFiles(front).value, last);
      } else {
        SubsetConsistent(front, files);
      }
    }
  }

  lemma SubsetConsistent(a: seq<File>, b: seq<File>)
    requires forall f :: f in a ==> f in b
    ensures Consistent(b) ==> Consistent(a)
  {
  }

  lemma InsertIff(front: seq<File>, merged: seq<File>, last: File)
    requires Consistent(front) && DistinctUrls(merged) && forall f :: f in merged <==> f in front
    ensures Insert(merged, last).Some? <==> Consistent(front + [last])
    ensures Insert(merged, last).Some? ==>
      DistinctUrls(Insert(merged, last).value) && forall f :: f in Insert(merged, last).value <==> f in front || f == last
  {
    if Clashes(merged, last) {
      var i :| 0 <= i < |merged| && merged[i].url == last.url && merged[i] != last;
      assert merged[i] in merged && !Agree(merged[i], last);
      assert merged[i] in front + [last] && last in front + [last];
    } else {
      forall f | f in front ensures Agree(f, last) && Agree(last, f) {
        assert f in merged;
        var i :| 0 <= i < |merged| && merged[i] == f;
      }
    }
  }

  lemma InsertPush(files: seq<File>, f: File)
    ensures MergeFiles(files + [f])
         == match MergeFiles(files) case None => None case Some(merged) => Insert(merged, f)
  {
    assert (files + [f])[..|files|] == files;
  }

  lemma {:induction false} FailedMergeStays(files: seq<File>, i: nat)
    requires i <= |files| && MergeFiles(files[..i]).None?
    ensures MergeFiles(files).None?
  {
    if i == |files| {
      assert files[..i] == files;
    } else {
      assert files[..|files| - 1][..i] == files[..i];
      FailedMergeStays(files[..|files| - 1], i);
    }
  }

  method CollectFiles(files: seq<File>) returns (r: Result<seq<File>, MergeError>)
    ensures r.Ok? <==> MergeFiles(files).Some?
    ensures r.Ok? ==> MergeFiles(files) == Some(r.value)
    ensures r.Err? ==> r.error.ConflictingFile?
  {
    // A map by url that keeps the order of insertion.
    var filesByUrl: seq<File> := [];
    for i := 0 to |files|
      invariant MergeFiles(files[..i]) == Some(filesByUrl)
    {
      var file := files[i];
      assert files[..i + 1] == files[..i] + [file];
      InsertPush(files[..i], file);
      if Clashes(filesByUrl, file) {
        FailedMergeStays(files, i + 1);
        return Err(ConflictingFile(file.url));
      }
      if file !in filesByUrl {
        filesByUrl := filesByUrl + [file];
      }
    }
    assert files[..|files|] == files;
    return Ok(filesByUrl);
  }

  // ----- extras -----

  /** A key of both with two values. */
  predicate ValuesClash(a: map<string, Scalar>, b: map<string, Scalar>) {
    exists k :: k in a && k in b && a[k] != b[k]
  }

  /** An inherited name that only the second has: it is looked up on the first, and found. */
  predicate FindsInherited(inherited: set<string>, a: map<string, Scalar>, b: map<string, Scalar>) {
    exists k :: k in inherited && k in b && k !in a
  }

  predicate ExtrasClash(inherited: set<string>, a: map<string, Scalar>, b: map<string, Scalar>) {
    ValuesClash(a, b) || FindsInherited(inherited, a, b)
  }

  method MergeExtras(inherited: set<string>, primary: map<string, Scalar>, secondary: map<string, Scalar>)
    returns (r: Result<map<string, Scalar>, MergeError>)
    ensures r == if ExtrasClash(inherited, primary, secondary) then Err(ConflictingExtra) else Ok(primary + secondary)
  {
    var merged := primary;
    var keys := secondary.Keys;
    while keys != {}
      invariant keys <= secondary.Keys
      invariant forall k :: k in merged <==> k in primary || (k in secondary && k !in keys)
      invariant forall k :: k in merged ==> merged[k] == if k in secondary && k !in keys then secondary[k] else primary[k]
      invariant forall k :: k in primary && k in secondary && k !in keys ==> primary[k] == secondary[k]
      invariant forall k :: k in inherited && k in secondary && k !in keys ==> k in primary
    {
      var key :| key in keys;
      if if key in merged then merged[key] != secondary[key] else key in inherited {
        return Err(ConflictingExtra);
      }
      merged := merged[key := secondary[key]];
      keys := keys - {key};
    }
    assert merged == primary + secondary;
    return Ok(merged);
  }

  // ----- manifests -----

  function Merge(inherited: set<string>, primary: Manifest, secondary: Manifest): Option<Manifest> {
    var files := MergeFiles(primary.files + secondary.files);
    if primary.version != secondary.version || files.None? || ExtrasClash(inherited, primary.extras, secondary.extras) then None
    else
      Some(Manifest(primary.version, Later(primary.releaseDate, secondary.releaseDate), files.value,
                    primary.extras + secondary.extras))
  }

  method MergeUpdateManifests(inherited: set<string>, primary: Manifest, secondary: Manifest) returns (r: Result<Manifest, MergeError>)
    ensures r.Ok? <==> Merge(inherited, primary, secondary).Some?
    ensures r.Ok? ==> Merge(inherited, primary, secondary) == Some(r.value)
    ensures r == Err(DifferentVersions) <==> primary.version != secondary.version
  {
    if primary.version != secondary.version {
      return Err(DifferentVersions);
    }
    var files :- CollectFiles(primary.files + secondary.files);
    var extras :- MergeExtras(inherited, primary.extras, secondary.extras);
    return Ok(Manifest(primary.version, Later(primary.releaseDate, secondary.releaseDate), files, extras));
  }

  /** The same manifest up to the order of its files. */
  ghost predicate SameManifest(a: Manifest, b: Manifest) {
    && a.version == b.version && a.releaseDate == b.releaseDate && a.extras == b.extras
    && DistinctUrls(a.files) && DistinctUrls(b.files)
    && forall f :: f in a.files <==> f in b.files
  }

  /** Neither versions, files nor values are in the way. */
  ghost predicate Compatible(a: Manifest, b: Manifest) {
    a.version == b.version && Consistent(a.files + b.files) && !ValuesClash(a.extras, b.extras)
  }

  lemma CompatibleEitherWay(a: Manifest, b: Manifest)
    ensures Compatible(a, b) <==> Compatible(b, a)
  {
    assert forall f :: f in a.files + b.files <==> f in b.files + a.files;
    SubsetConsistent(a.files + b.files, b.files + a.files);
    SubsetConsistent(b.files + a.files, a.files + b.files);
  }

  lemma MergesIff(inherited: set<string>, a: Manifest, b: Manifest)
    ensures Merge(inherited, a, b).Some? <==> Compatible(a, b) && !FindsInherited(inherited, a.extras, b.extras)
  {
    MergeFilesIff(a.files + b.files);
  }

  /** What a merged manifest says: the later date of the two, the files of both, and of each key
      what either says. */
  lemma MergedHoldsBoth(inherited: set<string>, a: Manifest, b: Manifest)
    requires Merge(inherited, a, b).Some?
    ensures var m := Merge(inherited, a, b).value;
      && m.version == a.version == b.version
      && LexLe(a.releaseDate, m.releaseDate) && LexLe(b.releaseDate, m.releaseDate)
      && (m.releaseDate == a.releaseDate || m.releaseDate == b.releaseDate)
      && (forall f :: f in m.files <==> f in a.files || f in b.files) && DistinctUrls(m.files)
      && m.extras.Keys == a.extras.Keys + b.extras.Keys
      && (forall k :: k in a.extras ==> m.extras[k] == a.extras[k])
      && (forall k :: k in b.extras ==> m.extras[k] == b.extras[k])
  {
    MergeFilesIff(a.files + b.files);
    LexLeTotal(a.releaseDate, b.releaseDate);
    LexLeTotal(a.releaseDate, a.releaseDate);
    LexLeTotal(b.releaseDate, b.releaseDate);
  }

  /** If both orders merge, they give the same but for the order of the files. */
  lemma MergedAlike(inherited: set<string>, a: Manifest, b: Manifest)
    requires Merge(inherited, a, b).Some? && Merge(inherited, b, a).Some?
    ensures SameManifest(Merge(inherited, a, b).value, Merge(inherited, b, a).value)
  {
    assert forall f :: f in a.files + b.files <==> f in b.files + a.files;
    MergeFilesIff(a.files + b.files);
    MergeFilesIff(b.files + a.files);
    LaterLaws(a.releaseDate, b.releaseDate, a.releaseDate);
    assert a.extras + b.extras == b.extras + a.extras;
  }

  /** Which manifest is called primary does not matter, but for the order of the files, exactly
      unless one of them only has a key with an inherited name that the other lacks; where it
      does, merging throws in that order alone. */
  lemma MergeCommutesIff(inherited: set<string>, a: Manifest, b: Manifest)
    ensures (Merge(inherited, a, b).Some? <==> Merge(inherited, b, a).Some?)
       <==> (Compatible(a, b) ==> (FindsInherited(inherited, a.extras, b.extras) <==> FindsInherited(inherited, b.extras, a.extras)))
    ensures Merge(inherited, a, b).Some? && Merge(inherited, b, a).Some?
        ==> SameManifest(Merge(inherited, a, b).value, Merge(inherited, b, a).value)
  {
    MergesIff(inherited, a, b);
    MergesIff(inherited, b, a);
    CompatibleEitherWay(a, b);
    if Merge(inherited, a, b).Some? && Merge(inherited, b, a).Some? {
      MergedAlike(inherited, a, b);
    }
  }

  /** A manifest with the extra key "constructor" merges as the primary one, and throws as the
      secondary one. */
  lemma ConstructorMergesOneWay()
    ensures var plain := Manifest("1.0.0", "2024", [File("a", "b", 1)], map[]);
      var odd := plain.(extras := map["constructor" := Text("x")]);
      Merge(INHERITED_NAMES, odd, plain).Some? && Merge(INHERITED_NAMES, plain, odd).None?
  {
    var odd := map["constructor" := Text("x")];
    assert "constructor" in INHERITED_NAMES && "constructor" in odd;
    var files := [File("a", "b", 1)];
    assert forall f :: f in files + files ==> f == files[0];
    MergeFilesIff(files + files);
  }

  lemma {:induction false} MergedIsFixed(files: seq<File>)
    requires DistinctUrls(files)
    ensures MergeFiles(files) == Some(files)
  {
    if files != [] {
      var front, last := files[..|files| - 1], files[|files| - 1];
      MergedIsFixed(front);
      assert forall i :: 0 <= i < |front| ==> front[i] == files[i];
      assert last !in front;
      assert front + [last] == files;
    }
  }

  lemma {:induction false} Absorbs(merged: seq<File>, more: seq<File>)
    requires DistinctUrls(merged) && forall f :: f in more ==> f in merged
    ensures MergeFiles(merged + more) == Some(merged)
  {
    if more == [] {
      assert merged + more == merged;
      MergedIsFixed(merged);
    } else {
      var front, last := more[..|more| - 1], more[|more| - 1];
      Absorbs(merged, front);
      assert merged + more == merged + front + [last];
      InsertPush(merged + front, last);
      assert last in merged;
      assert !Clashes(merged, last);
    }
  }

  /** Merging a manifest with itself gives it back exactly when it lists no url twice. */
  lemma MergeWithItselfIff(inherited: set<string>, m: Manifest)
    ensures Merge(inherited, m, m) == Some(m) <==> DistinctUrls(m.files)
  {
    MergeFilesIff(m.files + m.files);
    LaterLaws(m.releaseDate, m.releaseDate, m.releaseDate);
    assert m.extras + m.extras == m.extras;
    if DistinctUrls(m.files) {
      Absorbs(m.files, m.files);
    }
  }

  lemma {:induction false} MergeLeft(x: seq<File>, merged: seq<File>, c: seq<File>)
    requires MergeFiles(x) == Some(merged)
    ensures MergeFiles(merged + c) == MergeFiles(x + c)
    decreases |c|
  {
    if c == [] {
      assert merged + c == merged && x + c == x;
      MergeFilesIff(x);
      MergedIsFixed(merged);
    } else {
      var front, last := c[..|c| - 1], c[|c| - 1];
      MergeLeft(x, merged, front);
      assert merged + c == merged + front + [last] && x + c == x + front + [last];
      InsertPush(merged + front, last);
      InsertPush(x + front, last);
    }
  }

  lemma {:induction false} MergeRight(a: seq<File>, y: seq<File>, merged: seq<File>)
    requires MergeFiles(y) == Some(merged)
    ensures MergeFiles(a + merged) == MergeFiles(a + y)
    decreases |y|
  {
    if y != [] {
      var front, last := y[..|y| - 1], y[|y| - 1];
      var before := MergeFiles(front).value;
      MergeRight(a, front, before);
      assert a + y == a + front + [last];
      InsertPush(a + front, last);
      if last in before {
        MergeFilesIff(front);
        MergeFilesIff(a + front);
        if MergeFiles(a + front).Some? {
          AlreadyThere(a + front, MergeFiles(a + front).value, last);
        }
      } else {
        assert a + merged == a + before + [last];
        InsertPush(a + before, last);
      }
    }
  }

  lemma AlreadyThere(files: seq<File>, merged: seq<File>, f: File)
    requires DistinctUrls(merged) && f in merged
    ensures Insert(merged, f) == Some(merged)
  {
  }

  lemma MergeFilesAssociative(a: seq<File>, b: seq<File>, c: seq<File>, ab: seq<File>, bc: seq<File>)
    requires MergeFiles(a + b) == Some(ab) && MergeFiles(b + c) == Some(bc)
    ensures MergeFiles(ab + c) == MergeFiles(a + bc)
  {
    Regroup(a, b, c);
    assert MergeFiles(ab + c) == MergeFiles(a + b + c) by {
      MergeLeft(a + b, ab, c);
    }
    MergeRight(a, b + c, bc);
  }

  /** Three manifests, each merging with the next, merge alike in either grouping, or fail
      alike; the files come in the same order. */
  lemma MergeAssociates(inherited: set<string>, a: Manifest, b: Manifest, c: Manifest)
    requires Merge(inherited, a, b).Some? && Merge(inherited, b, c).Some?
    ensures Merge(inherited, Merge(inherited, a, b).value, c) == Merge(inherited, a, Merge(inherited, b, c).value)
  {
    var ab, bc := Merge(inherited, a, b).value, Merge(inherited, b, c).value;
    MergeFilesAssociative(a.files, b.files, c.files, ab.files, bc.files);
    LaterLaws(a.releaseDate, b.releaseDate, c.releaseDate);
    assert a.extras + b.extras + c.extras == a.extras + (b.extras + c.extras);
    ClashAssociates(inherited, a.extras, b.extras, c.extras);
  }

  lemma ClashAssociates(inherited: set<string>, a: map<string, Scalar>, b: map<string, Scalar>, c: map<string, Scalar>)
    requires !ExtrasClash(inherited, a, b) && !ExtrasClash(inherited, b, c)
    ensures ExtrasClash(inherited, a + b, c) <==> ExtrasClash(inherited, a, b + c)
  {
    if k :| k in a + b && k in c && (a + b)[k] != c[k] {
      assert k in a && k in b + c;
    }
    if k :| k in a && k in b + c && a[k] != (b + c)[k] {
      assert k in a + b && k in c;
    }
  }
}
