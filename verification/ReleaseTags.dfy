/**
 * Ordering release versions and resolving the previous release tag
 * (scripts/resolve-previous-release-tag.ts:27-159), after section 11 of SemVer 2.0.0. The
 * locale's text order is a parameter.
 */
module ReleaseTags {
  import opened Prelude
  import opened Text

  datatype StableVersion = StableVersion(major: nat, minor: nat, patch: nat, prerelease: seq<string>)

  datatype NightlyVersion = NightlyVersion(major: nat, minor: nat, patch: nat, date: nat, runNumber: nat)

  type Comparison<!T> = (T, T) -> int

  // ----- comparing -----

  predicate IsNumeric(s: string) {
    s != "" && AllDigits(s)
  }

  function ParseNumericIdentifier(s: string): Option<nat> {
    if IsNumeric(s) then Some(NatOf(s)) else None
  }

  function CompareIdentifiers(text: Comparison<string>, left: string, right: string): int {
    match (ParseNumericIdentifier(left), ParseNumericIdentifier(right))
    case (Some(l), Some(r)) => l - r
    case (Some(_), None) => -1
    case (None, Some(_)) => 1
    case (None, None) => text(left, right)
  }

  function IdentifierOrder(text: Comparison<string>): Comparison<string> {
    (left, right) => CompareIdentifiers(text, left, right)
  }

  /** Identifier by identifier from `i` on; a list that ends first comes first. */
  function CompareListsFrom(cmp: Comparison<string>, left: seq<string>, right: seq<string>, i: nat): int
    decreases |left| - i
  {
    if i >= |left| && i >= |right| then 0
    else if i >= |left| then -1
    else if i >= |right| then 1
    else if cmp(left[i], right[i]) != 0 then cmp(left[i], right[i])
    else CompareListsFrom(cmp, left, right, i + 1)
  }

  function CompareStable(text: Comparison<string>, left: StableVersion, right: StableVersion): int {
    if left.major != right.major then left.major - right.major
    else if left.minor != right.minor then left.minor - right.minor
    else if left.patch != right.patch then left.patch - right.patch
    else if left.prerelease == [] && right.prerelease == [] then 0
    else if left.prerelease == [] then 1
    else if right.prerelease == [] then -1
    else CompareListsFrom(IdentifierOrder(text), left.prerelease, right.prerelease, 0)
  }

  method CompareStableVersions(text: Comparison<string>, left: StableVersion, right: StableVersion) returns (r: int)
    ensures r == CompareStable(text, left, right)
  {
    if left.major != right.major {
      return left.major - right.major;
    }
    if left.minor != right.minor {
      return left.minor - right.minor;
    }
    if left.patch != right.patch {
      return left.patch - right.patch;
    }
    var leftHasPrerelease, rightHasPrerelease := |left.prerelease| > 0, |right.prerelease| > 0;
    if !leftHasPrerelease && !rightHasPrerelease {
      return 0;
    }
    if !leftHasPrerelease {
      return 1;
    }
    if !rightHasPrerelease {
      return -1;
    }
    var maxLength := Max(|left.prerelease|, |right.prerelease|);
    ghost var cmp := IdentifierOrder(text);
    for index := 0 to maxLength
      invariant CompareStable(text, left, right) == CompareListsFrom(cmp, left.prerelease, right.prerelease, index)
    {
      if index >= |left.prerelease| {
        return -1;
      }
      if index >= |right.prerelease| {
        return 1;
      }
      var comparison := CompareIdentifiers(text, left.prerelease[index], right.prerelease[index]);
      if comparison != 0 {
        return comparison;
      }
    }
    return 0;
  }

  function CompareNightly(left: NightlyVersion, right: NightlyVersion): int {
    if left.major != right.major then left.major - right.major
    else if left.minor != right.minor then left.minor - right.minor
    else if left.patch != right.patch then left.patch - right.patch
    else if left.date != right.date then left.date - right.date
    else left.runNumber - right.runNumber
  }

  function StableOrder(text: Comparison<string>): Comparison<StableVersion> {
    (left, right) => CompareStable(text, left, right)
  }

  function NightlyOrder(): Comparison<NightlyVersion> {
    (left, right) => CompareNightly(left, right)
  }

  // ----- the comparisons are total preorders -----

  /** Reflexive, antisymmetric in sign, and transitive. */
  ghost predicate Order<T(!new)>(cmp: Comparison<T>) {
    && (forall a, b :: cmp(a, b) < 0 <==> cmp(b, a) > 0)
    && (forall a, b, c :: cmp(a, b) <= 0 && cmp(b, c) <= 0 ==> cmp(a, c) <= 0)
  }

  lemma OrderAt<T(!new)>(cmp: Comparison<T>, a: T, b: T, c: T)
    requires Order(cmp)
    ensures cmp(a, a) == 0 && (cmp(a, b) == 0 <==> cmp(b, a) == 0)
    ensures cmp(a, b) < 0 && cmp(b, c) <= 0 ==> cmp(a, c) < 0
    ensures cmp(a, b) <= 0 && cmp(b, c) < 0 ==> cmp(a, c) < 0
    ensures cmp(a, b) == 0 && cmp(b, c) == 0 ==> cmp(a, c) == 0
  {
    assert cmp(a, a) < 0 <==> cmp(a, a) > 0;
    assert cmp(c, a) <= 0 && cmp(a, b) <= 0 ==> cmp(c, b) <= 0;
    assert cmp(b, c) <= 0 && cmp(c, a) <= 0 ==> cmp(b, a) <= 0;
    assert cmp(c, b) <= 0 && cmp(b, a) <= 0 ==> cmp(c, a) <= 0;
  }

  lemma IdentifiersAreOrdered(text: Comparison<string>)
    requires Order(text)
    ensures Order(IdentifierOrder(text))
  {
  }

  lemma {:induction false} ListsAntisymmetric(cmp: Comparison<string>, a: seq<string>, b: seq<string>, i: nat)
    requires Order(cmp)
    ensures CompareListsFrom(cmp, a, b, i) < 0 <==> CompareListsFrom(cmp, b, a, i) > 0
    ensures CompareListsFrom(cmp, a, b, i) > 0 <==> CompareListsFrom(cmp, b, a, i) < 0
    decreases |a| - i
  {
    if i < |a| && i < |b| {
      OrderAt(cmp, a[i], b[i], a[i]);
      ListsAntisymmetric(cmp, a, b, i + 1);
    }
  }

  lemma {:induction false} ListsTransitive(cmp: Comparison<string>, a: seq<string>, b: seq<string>, c: seq<string>, i: nat)
    requires Order(cmp)
    requires CompareListsFrom(cmp, a, b, i) <= 0 && CompareListsFrom(cmp, b, c, i) <= 0
    ensures CompareListsFrom(cmp, a, c, i) <= 0
    decreases |a| - i
  {
    if i < |a| && i < |b| && i < |c| {
      OrderAt(cmp, a[i], b[i], c[i]);
      if cmp(a[i], b[i]) == 0 && cmp(b[i], c[i]) == 0 {
        ListsTransitive(cmp, a, b, c, i + 1);
      }
    }
  }

  /** Comparing stable versions is a total preorder if comparing texts is one. */
  lemma StableVersionsAreOrdered(text: Comparison<string>)
    requires Order(text)
    ensures Order(StableOrder(text))
  {
    var cmp := IdentifierOrder(text);
    IdentifiersAreOrdered(text);
    forall a: StableVersion, b: StableVersion ensures StableOrder(text)(a, b) < 0 <==> StableOrder(text)(b, a) > 0 {
      ListsAntisymmetric(cmp, a.prerelease, b.prerelease, 0);
    }
    forall a: StableVersion, b: StableVersion, c: StableVersion
      | StableOrder(text)(a, b) <= 0 && StableOrder(text)(b, c) <= 0
      ensures StableOrder(text)(a, c) <= 0
    {
      StableTransitive(text, a, b, c);
    }
  }

  lemma StableTransitive(text: Comparison<string>, a: StableVersion, b: StableVersion, c: StableVersion)
    requires Order(text) && CompareStable(text, a, b) <= 0 && CompareStable(text, b, c) <= 0
    ensures CompareStable(text, a, c) <= 0
  {
    var cmp := IdentifierOrder(text);
    IdentifiersAreOrdered(text);
    if a.prerelease != [] && b.prerelease != [] && c.prerelease != []
      && CompareListsFrom(cmp, a.prerelease, b.prerelease, 0) <= 0
      && CompareListsFrom(cmp, b.prerelease, c.prerelease, 0) <= 0
    {
      ListsTransitive(cmp, a.prerelease, b.prerelease, c.prerelease, 0);
    }
  }

  lemma NightlyVersionsAreOrdered()
    ensures Order(NightlyOrder())
  {
  }

  /** Section 11.4.4: a longer list of identifiers that starts alike comes later. */
  lemma LongerPrereleaseIsLater(text: Comparison<string>, v: StableVersion, more: seq<string>)
    requires Order(text) && v.prerelease != [] && more != []
    ensures CompareStable(text, v, v.(prerelease := v.prerelease + more)) < 0
  {
    IdentifiersAreOrdered(text);
    LongerListIsLater(IdentifierOrder(text), v.prerelease, more, 0);
  }

  lemma {:induction false} LongerListIsLater(cmp: Comparison<string>, a: seq<string>, more: seq<string>, i: nat)
    requires Order(cmp) && i <= |a| && more != []
    ensures CompareListsFrom(cmp, a, a + more, i) < 0
    decreases |a| - i
  {
    if i < |a| {
      OrderAt(cmp, a[i], a[i], a[i]);
      LongerListIsLater(cmp, a, more, i + 1);
    }
  }

  // ----- the precedence of section 11, told apart from the comparisons -----

  ghost predicate IdentifierBelow(text: Comparison<string>, a: string, b: string) {
    || (IsNumeric(a) && IsNumeric(b) && NatOf(a) < NatOf(b))
    || (IsNumeric(a) && !IsNumeric(b))
    || (!IsNumeric(a) && !IsNumeric(b) && text(a, b) < 0)
  }

  ghost predicate IdentifierSame(text: Comparison<string>, a: string, b: string) {
    || (IsNumeric(a) && IsNumeric(b) && NatOf(a) == NatOf(b))
    || (!IsNumeric(a) && !IsNumeric(b) && text(a, b) == 0)
  }

  /** From `i` on alike up to `k`, where the first list ends or has the smaller identifier. */
  ghost predicate ListBelowAt(text: Comparison<string>, p: seq<string>, q: seq<string>, i: nat, k: nat) {
    && i <= k <= |p| && k < |q|
    && (forall j :: i <= j < k ==> IdentifierSame(text, p[j], q[j]))
    && (k < |p| ==> IdentifierBelow(text, p[k], q[k]))
  }

  /** Smaller at the first number that differs. */
  ghost predicate NumbersBelow(a: seq<nat>, b: seq<nat>)
    requires |a| == |b|
  {
    exists k :: 0 <= k < |a| && a[k] < b[k] && forall j :: 0 <= j < k ==> a[j] == b[j]
  }

  ghost function StableNumbers(v: StableVersion): seq<nat> {
    [v.major, v.minor, v.patch]
  }

  ghost function NightlyNumbers(v: NightlyVersion): seq<nat> {
    [v.major, v.minor, v.patch, v.date, v.runNumber]
  }

  /** By the three numbers; then a pre-release before the release, and pre-releases by their
      identifiers. */
  ghost predicate StableBelow(text: Comparison<string>, a: StableVersion, b: StableVersion) {
    || NumbersBelow(StableNumbers(a), StableNumbers(b))
    || (&& StableNumbers(a) == StableNumbers(b) && a.prerelease != []
        && (b.prerelease == [] || exists k: nat :: ListBelowAt(text, a.prerelease, b.prerelease, 0, k)))
  }

  lemma {:induction false} ListPrecedence(text: Comparison<string>, p: seq<string>, q: seq<string>, i: nat)
    requires i <= |p| && i <= |q|
    ensures CompareListsFrom(IdentifierOrder(text), p, q, i) < 0 <==> exists k: nat :: ListBelowAt(text, p, q, i, k)
    decreases |p| - i
  {
    if i < |p| && i < |q| {
      if IdentifierSame(text, p[i], q[i]) {
        var next := i + 1;
        ListPrecedence(text, p, q, next);
        if k: nat :| ListBelowAt(text, p, q, i, k) {
          assert ListBelowAt(text, p, q, next, k);
        }
        if k: nat :| ListBelowAt(text, p, q, next, k) {
          assert ListBelowAt(text, p, q, i, k);
        }
      } else {
        assert ListBelowAt(text, p, q, i, i) <==> IdentifierBelow(text, p[i], q[i]);
        forall k: nat ensures ListBelowAt(text, p, q, i, k) ==> k == i {
        }
      }
    } else {
      assert i < |q| ==> ListBelowAt(text, p, q, i, i);
    }
  }

  lemma NumbersPrecedence(a: StableVersion, b: StableVersion)
    ensures NumbersBelow(StableNumbers(a), StableNumbers(b))
       <==> (a.major < b.major || (a.major == b.major && (a.minor < b.minor || (a.minor == b.minor && a.patch < b.patch))))
  {
    var x, y := StableNumbers(a), StableNumbers(b);
    assert x[0] == a.major && x[1] == a.minor && x[2] == a.patch;
    assert y[0] == b.major && y[1] == b.minor && y[2] == b.patch;
  }

  /** A stable version compares below another exactly when it comes before it. */
  lemma StablePrecedence(text: Comparison<string>, a: StableVersion, b: StableVersion)
    ensures StableOrder(text)(a, b) == CompareStable(text, a, b)
    ensures CompareStable(text, a, b) < 0 <==> StableBelow(text, a, b)
  {
    NumbersPrecedence(a, b);
    ListPrecedence(text, a.prerelease, b.prerelease, 0);
    if a.major == b.major && a.minor == b.minor && a.patch == b.patch {
      assert StableNumbers(a) == StableNumbers(b);
    } else {
      assert StableNumbers(a) != StableNumbers(b) by {
        assert StableNumbers(a)[0] == a.major && StableNumbers(a)[1] == a.minor && StableNumbers(a)[2] == a.patch;
        assert StableNumbers(b)[0] == b.major && StableNumbers(b)[1] == b.minor && StableNumbers(b)[2] == b.patch;
      }
    }
  }

  ghost predicate NightlyBelow(a: NightlyVersion, b: NightlyVersion) {
    NumbersBelow(NightlyNumbers(a), NightlyNumbers(b))
  }

  lemma NightlyPrecedence(a: NightlyVersion, b: NightlyVersion)
    ensures NightlyOrder()(a, b) == CompareNightly(a, b)
    ensures CompareNightly(a, b) < 0 <==> NightlyBelow(a, b)
  {
    var x, y := NightlyNumbers(a), NightlyNumbers(b);
    assert x[0] == a.major && x[1] == a.minor && x[2] == a.patch && x[3] == a.date && x[4] == a.runNumber;
    assert y[0] == b.major && y[1] == b.minor && y[2] == b.patch && y[3] == b.date && y[4] == b.runNumber;
  }

  // ----- the resolver -----

  datatype Candidate<T> = Candidate(tag: string, parsed: T)

  /** The tags that parse to a version below the current one. */
  function Candidates<T>(parse: string -> Option<T>, cmp: Comparison<T>, current: T, tags: seq<string>): seq<Candidate<T>> {
    if tags == [] then []
    else
      var last := tags[|tags| - 1];
      Candidates(parse, cmp, current, tags[..|tags| - 1])
      + if parse(last).Some? && cmp(parse(last).value, current) < 0 then [Candidate(last, parse(last).value)] else []
  }

  /** Behind everything that is not below it. */
  function InsertDescending<T>(cmp: Comparison<T>, sorted: seq<Candidate<T>>, x: Candidate<T>): seq<Candidate<T>> {
    if sorted == [] then [x]
    else if cmp(sorted[0].parsed, x.parsed) < 0 then [x] + sorted
    else [sorted[0]] + InsertDescending(cmp, sorted[1..], x)
  }

  /** Sorted from the greatest on; equal ones keep their order. */
  function SortDescending<T>(cmp: Comparison<T>, s: seq<Candidate<T>>): seq<Candidate<T>> {
    if s == [] then [] else InsertDescending(cmp, SortDescending(cmp, s[..|s| - 1]), s[|s| - 1])
  }

  function ResolvePrevious<T>(parse: string -> Option<T>, cmp: Comparison<T>, currentTag: string, tags: seq<string>): Result<Option<string>, string> {
    match parse(currentTag)
    case None => Err("Invalid release tag")
    case Some(current) =>
      var candidates := SortDescending(cmp, Candidates(parse, cmp, current, tags));
      Ok(if candidates == [] then None else Some(candidates[0].tag))
  }

  ghost predicate NoneAbove<T(!new)>(cmp: Comparison<T>, x: Candidate<T>, s: seq<Candidate<T>>) {
    forall y :: y in s ==> cmp(y.parsed, x.parsed) <= 0
  }

  ghost predicate Descending<T(!new)>(cmp: Comparison<T>, s: seq<Candidate<T>>) {
    s == [] || (NoneAbove(cmp, s[0], s[1..]) && Descending(cmp, s[1..]))
  }

  lemma {:induction false} InsertAdds<T>(cmp: Comparison<T>, sorted: seq<Candidate<T>>, x: Candidate<T>)
    ensures multiset(InsertDescending(cmp, sorted, x)) == multiset(sorted) + multiset{x}
  {
    if sorted != [] && cmp(sorted[0].parsed, x.parsed) >= 0 {
      InsertAdds(cmp, sorted[1..], x);
      assert sorted == [sorted[0]] + sorted[1..];
    }
  }

  lemma InsertedMember<T>(cmp: Comparison<T>, sorted: seq<Candidate<T>>, x: Candidate<T>, y: Candidate<T>)
    requires y in InsertDescending(cmp, sorted, x)
    ensures y in sorted || y == x
  {
    InsertAdds(cmp, sorted, x);
    assert y in multiset(InsertDescending(cmp, sorted, x));
  }

  lemma {:induction false} InsertKeepsDescending<T(!new)>(cmp: Comparison<T>, sorted: seq<Candidate<T>>, x: Candidate<T>)
    requires Order(cmp) && Descending(cmp, sorted)
    ensures Descending(cmp, InsertDescending(cmp, sorted, x))
  {
    if sorted != [] {
      var head, tail := sorted[0], sorted[1..];
      assert sorted == [head] + tail;
      if cmp(head.parsed, x.parsed) < 0 {
        forall y | y in sorted ensures cmp(y.parsed, x.parsed) <= 0 {
          OrderAt(cmp, y.parsed, head.parsed, x.parsed);
        }
        assert ([x] + sorted)[1..] == sorted;
      } else {
        InsertKeepsDescending(cmp, tail, x);
        var rest := InsertDescending(cmp, tail, x);
        OrderAt(cmp, head.parsed, x.parsed, head.parsed);
        forall y | y in rest ensures cmp(y.parsed, head.parsed) <= 0 {
          InsertedMember(cmp, tail, x, y);
        }
        assert ([head] + rest)[1..] == rest;
      }
    }
  }

  /** The sort is a sorted permutation. */
  lemma {:induction false} SortIsDescending<T(!new)>(cmp: Comparison<T>, s: seq<Candidate<T>>)
    requires Order(cmp)
    ensures Descending(cmp, SortDescending(cmp, s)) && multiset(SortDescending(cmp, s)) == multiset(s)
  {
    if s != [] {
      var front, last := s[..|s| - 1], s[|s| - 1];
      assert s == front + [last];
      SortIsDescending(cmp, front);
      InsertKeepsDescending(cmp, SortDescending(cmp, front), last);
      InsertAdds(cmp, SortDescending(cmp, front), last);
    }
  }

  ghost predicate Below<T>(parse: string -> Option<T>, cmp: Comparison<T>, current: T, tag: string) {
    parse(tag).Some? && cmp(parse(tag).value, current) < 0
  }

  /** The tag at `i` is below the current one, none below it is greater, and those before it
      are less. */
  ghost predicate FirstGreatest<T>(parse: string -> Option<T>, cmp: Comparison<T>, current: T, tags: seq<string>, i: nat) {
    && i < |tags| && Below(parse, cmp, current, tags[i])
    && (forall j :: 0 <= j < |tags| && Below(parse, cmp, current, tags[j])
          ==> cmp(parse(tags[j]).value, parse(tags[i]).value) <= 0)
    && (forall j :: 0 <= j < i && Below(parse, cmp, current, tags[j])
          ==> cmp(parse(tags[j]).value, parse(tags[i]).value) < 0)
  }

  lemma HeadAfterInsert<T>(cmp: Comparison<T>, sorted: seq<Candidate<T>>, x: Candidate<T>)
    ensures InsertDescending(cmp, sorted, x) != []
    ensures InsertDescending(cmp, sorted, x)[0]
         == if sorted == [] || cmp(sorted[0].parsed, x.parsed) < 0 then x else sorted[0]
  {
  }

  ghost predicate NoneBelow<T>(parse: string -> Option<T>, cmp: Comparison<T>, current: T, tags: seq<string>) {
    forall j :: 0 <= j < |tags| ==> !Below(parse, cmp, current, tags[j])
  }

  lemma StillFirstGreatest<T(!new)>(parse: string -> Option<T>, cmp: Comparison<T>, current: T, tags: seq<string>, i: nat, last: string)
    requires FirstGreatest(parse, cmp, current, tags, i)
    requires Below(parse, cmp, current, last) ==> cmp(parse(last).value, parse(tags[i]).value) <= 0
    ensures FirstGreatest(parse, cmp, current, tags + [last], i)
  {
    assert forall j :: 0 <= j < |tags| ==> (tags + [last])[j] == tags[j];
  }

  lemma NewFirstGreatest<T(!new)>(parse: string -> Option<T>, cmp: Comparison<T>, current: T, tags: seq<string>, i: nat, last: string)
    requires Order(cmp) && Below(parse, cmp, current, last)
    requires NoneBelow(parse, cmp, current, tags)
             || (FirstGreatest(parse, cmp, current, tags, i) && cmp(parse(tags[i]).value, parse(last).value) < 0)
    ensures FirstGreatest(parse, cmp, current, tags + [last], |tags|)
  {
    var x := parse(last).value;
    OrderAt(cmp, x, x, x);
    forall j | 0 <= j < |tags| && Below(parse, cmp, current, tags[j])
      ensures cmp(parse(tags[j]).value, x) < 0
    {
      if FirstGreatest(parse, cmp, current, tags, i) {
        OrderAt(cmp, parse(tags[j]).value, parse(tags[i]).value, x);
      }
    }
    assert forall j :: 0 <= j < |tags| ==> (tags + [last])[j] == tags[j];
  }

  lemma SortPush<T>(cmp: Comparison<T>, s: seq<Candidate<T>>, x: Candidate<T>)
    ensures SortDescending(cmp, s + [x]) == InsertDescending(cmp, SortDescending(cmp, s), x)
  {
    assert (s + [x])[..|s|] == s;
  }

  lemma CandidatesPush<T>(parse: string -> Option<T>, cmp: Comparison<T>, current: T, tags: seq<string>, last: string)
    ensures Candidates(parse, cmp, current, tags + [last])
         == Candidates(parse, cmp, current, tags)
            + if Below(parse, cmp, current, last) then [Candidate(last, parse(last).value)] else []
  {
    assert (tags + [last])[..|tags|] == tags;
  }

  /** What the head of the sorted candidates is. */
  ghost predicate HeadOk<T>(parse: string -> Option<T>, cmp: Comparison<T>, current: T, tags: seq<string>,
                            sorted: seq<Candidate<T>>, i: nat) {
    if sorted == [] then NoneBelow(parse, cmp, current, tags)
    else FirstGreatest(parse, cmp, current, tags, i) && sorted[0] == Candidate(tags[i], parse(tags[i]).value)
  }

  lemma HeadStep<T(!new)>(parse: string -> Option<T>, cmp: Comparison<T>, current: T, tags: seq<string>,
                          sorted: seq<Candidate<T>>, i: nat, last: string) returns (next: nat)
    requires Order(cmp) && HeadOk(parse, cmp, current, tags, sorted, i)
    ensures HeadOk(parse, cmp, current, tags + [last],
                   if Below(parse, cmp, current, last) then InsertDescending(cmp, sorted, Candidate(last, parse(last).value)) else sorted,
                   next)
  {
    next := i;
    if Below(parse, cmp, current, last) {
      var x := Candidate(last, parse(last).value);
      HeadAfterInsert(cmp, sorted, x);
      if sorted == [] || cmp(sorted[0].parsed, x.parsed) < 0 {
        NewFirstGreatest(parse, cmp, current, tags, i, last);
        next := |tags|;
      } else {
        OrderAt(cmp, x.parsed, sorted[0].parsed, x.parsed);
        StillFirstGreatest(parse, cmp, current, tags, i, last);
      }
    } else if sorted != [] {
      StillFirstGreatest(parse, cmp, current, tags, i, last);
    }
  }

  lemma {:induction false} HeadIsFirstGreatest<T(!new)>(parse: string -> Option<T>, cmp: Comparison<T>, current: T, tags: seq<string>)
    returns (i: nat)
    requires Order(cmp)
    ensures HeadOk(parse, cmp, current, tags, SortDescending(cmp, Candidates(parse, cmp, current, tags)), i)
  {
    i := 0;
    if tags != [] {
      var front, last := tags[..|tags| - 1], tags[|tags| - 1];
      i := HeadIsFirstGreatest(parse, cmp, current, front);
      var before := Candidates(parse, cmp, current, front);
      i := HeadStep(parse, cmp, current, front, SortDescending(cmp, before), i, last);
      assert front + [last] == tags;
      CandidatesPush(parse, cmp, current, front, last);
      if Below(parse, cmp, current, last) {
        SortPush(cmp, before, Candidate(last, parse(last).value));
      } else {
        assert before + [] == before;
      }
    }
  }

  /** The resolver returns the first of the greatest tags strictly below the current one, and
      nothing exactly when there is none. */
  lemma PreviousIsFirstGreatest<T(!new)>(parse: string -> Option<T>, cmp: Comparison<T>, currentTag: string, tags: seq<string>)
    requires Order(cmp) && parse(currentTag).Some?
    ensures var r := ResolvePrevious(parse, cmp, currentTag, tags); var current := parse(currentTag).value;
      && r.Ok?
      && (r.value.None? <==> NoneBelow(parse, cmp, current, tags))
      && (r.value.Some? ==> exists i: nat :: FirstGreatest(parse, cmp, current, tags, i) && r.value.value == tags[i])
  {
    var current := parse(currentTag).value;
    var i := HeadIsFirstGreatest(parse, cmp, current, tags);
  }

  lemma FirstGreatestIsUnique<T(!new)>(parse: string -> Option<T>, cmp: Comparison<T>, current: T, tags: seq<string>, i: nat, j: nat)
    requires Order(cmp) && FirstGreatest(parse, cmp, current, tags, i) && FirstGreatest(parse, cmp, current, tags, j)
    ensures i == j
  {
    OrderAt(cmp, parse(tags[i]).value, parse(tags[j]).value, parse(tags[i]).value);
  }

  // ----- reading tags -----

  predicate IsPart(c: char) {
    IsDigit(c) || IsLetter(c) || c == '.' || c == '-'
  }

  /** Where the run of digits from `i` on ends. */
  function DigitsEnd(s: string, i: nat): (end: nat)
    requires i <= |s|
    ensures i <= end <= |s| && forall k :: i <= k < end ==> IsDigit(s[k])
    ensures end < |s| ==> !IsDigit(s[end])
    decreases |s| - i
  {
    if i < |s| && IsDigit(s[i]) then DigitsEnd(s, i + 1) else i
  }

  function PartEnd(s: string, i: nat): (end: nat)
    requires i <= |s|
    ensures i <= end <= |s| && forall k :: i <= k < end ==> IsPart(s[k])
    ensures end < |s| ==> !IsPart(s[end])
    decreases |s| - i
  {
    if i < |s| && IsPart(s[i]) then PartEnd(s, i + 1) else i
  }

  // The numbers as they are written, and where they end.
  datatype Core = Core(major: DigitText, minor: DigitText, patch: DigitText, end: nat)

  function DigitsAt(s: string, i: nat): (r: DigitText)
    requires i <= |s|
    ensures r == s[i..DigitsEnd(s, i)]
  {
    var r := s[i..DigitsEnd(s, i)];
    assert forall k :: 0 <= k < |r| ==> r[k] == s[i + k];
    r
  }

  /** Where a number from `i` on ends before a point. */
  function PointAfter(s: string, i: nat): (r: Option<nat>)
    requires i <= |s|
    ensures r.Some? ==> i < r.value < |s|
  {
    var end := DigitsEnd(s, i);
    if end == i || end == |s| || s[end] != '.' then None else Some(end)
  }

  /** "v", and three numbers with points between, from `i` on. */
  function CoreAt(s: string, i: nat): (r: Option<Core>)
    requires i <= |s|
    ensures r.Some? ==> i < r.value.end <= |s|
  {
    if i == |s| || s[i] != 'v' then None
    else
      match PointAfter(s, i + 1)
      case None => None
      case Some(x) =>
        match PointAfter(s, x + 1)
        case None => None
        case Some(y) =>
          var end := DigitsEnd(s, y + 1);
          if end == y + 1 then None else Some(Core(DigitsAt(s, i + 1), DigitsAt(s, x + 1), DigitsAt(s, y + 1), end))
  }

  const NIGHTLY := "nightly"

  /** The end of a mark and the identifiers behind it, if the mark is there. */
  function SuffixEnd(tag: string, i: nat, mark: char): (end: nat)
    requires i <= |tag|
    ensures i <= end <= |tag|
  {
    if i < |tag| && tag[i] == mark then PartEnd(tag, i + 1) else i
  }

  /** What may follow the numbers: "-" and identifiers, "+" and build identifiers. */
  function StableAfter(tag: string, core: Core): Option<StableVersion>
    requires core.end <= |tag|
  {
    var p := SuffixEnd(tag, core.end, '-');
    var b := SuffixEnd(tag, p, '+');
    if p == core.end + 1 || b == p + 1 || b != |tag| then None
    else
      var prerelease := if p > core.end then Split('.', tag[core.end + 1..p]) else [];
      if prerelease != [] && prerelease[0] == NIGHTLY then None
      else Some(StableVersion(NatOf(core.major), NatOf(core.minor), NatOf(core.patch), prerelease))
  }

  function ParseStableTag(tag: string): Option<StableVersion> {
    match CoreAt(tag, 0)
    case None => None
    case Some(core) => StableAfter(tag, core)
  }

  /** "-nightly.", eight digits, a point and digits, from `i` to the end. */
  function NightlyTail(s: string, i: nat): Option<(DigitText, DigitText)>
    requires i <= |s|
  {
    var d := i + |NIGHTLY| + 2;
    if d + 9 > |s| || s[i] != '-' || s[i + 1..d - 1] != NIGHTLY || s[d - 1] != '.' then None
    else
      var e := DigitsEnd(s, d);
      if e != d + 8 || e == |s| || s[e] != '.' then None
      else
        var n := DigitsEnd(s, e + 1);
        if n == e + 1 || n != |s| then None else Some((DigitsAt(s, d), DigitsAt(s, e + 1)))
  }

  /** With the older "nightly-v" form as well. */
  function ParseNightlyTag(tag: string): Option<NightlyVersion> {
    var start := if NIGHTLY + "-" <= tag then |NIGHTLY| + 1 else 0;
    match CoreAt(tag, start)
    case None => None
    case Some(core) =>
      match NightlyTail(tag, core.end)
      case None => None
      case Some((date, run)) =>
        Some(NightlyVersion(NatOf(core.major), NatOf(core.minor), NatOf(core.patch), NatOf(date), NatOf(run)))
  }

  lemma {:induction false} PartRun(s: string, i: nat, end: nat)
    requires i <= end <= |s| && (forall k :: i <= k < end ==> IsPart(s[k])) && (end < |s| ==> !IsPart(s[end]))
    ensures PartEnd(s, i) == end
    decreases end - i
  {
    if i < end {
      PartRun(s, i + 1, end);
    }
  }

  lemma NightlyTailParts(s: string, i: nat)
    requires i <= |s| && NightlyTail(s, i).Some?
    ensures i + 9 < |s| && s[i] == '-' && s[i + 1..i + 8] == NIGHTLY && s[i + 8] == '.'
    ensures forall k :: i < k < |s| ==> IsPart(s[k])
  {
    var d := i + |NIGHTLY| + 2;
    var e := DigitsEnd(s, d);
    forall k | i < k < |s| ensures IsPart(s[k]) {
      if k < d - 1 {
        assert s[k] == s[i + 1..d - 1][k - i - 1];
      }
    }
  }

  /** No tag is both a stable and a nightly release. */
  lemma StableTagsAreNotNightly(tag: string)
    ensures ParseStableTag(tag).None? || ParseNightlyTag(tag).None?
  {
    if CoreAt(tag, 0).Some? {
      var core := CoreAt(tag, 0).value;
      assert tag[0] == 'v';
      assert !(NIGHTLY + "-" <= tag) by {
        assert (NIGHTLY + "-")[0] == 'n';
      }
      if NightlyTail(tag, core.end).Some? {
        NightlyTailParts(tag, core.end);
        NotStable(tag, core);
      }
    }
  }

  lemma NightlyFirst(rest: string)
    requires |rest| >= 8 && rest[..7] == NIGHTLY && rest[7] == '.'
    ensures Split('.', rest)[0] == NIGHTLY
  {
    assert rest == rest[..7] + ['.'] + rest[8..];
    SplitAfterWord('.', rest[..7], rest[8..]);
  }

  lemma NotStable(tag: string, core: Core)
    requires core.end + 9 < |tag|
    requires tag[core.end] == '-' && tag[core.end + 1..core.end + 8] == NIGHTLY && tag[core.end + 8] == '.'
    requires forall k :: core.end < k < |tag| ==> IsPart(tag[k])
    ensures StableAfter(tag, core).None?
  {
    PartRun(tag, core.end + 1, |tag|);
    var rest := tag[core.end + 1..|tag|];
    assert rest[..7] == tag[core.end + 1..core.end + 8];
    NightlyFirst(rest);
  }

  // ----- which tags are read, and as what -----

  predicate IsParts(s: string) {
    s != "" && forall k :: 0 <= k < |s| ==> IsPart(s[k])
  }

  /** "v1.2.3". */
  function CoreText(a: string, b: string, c: string): string {
    "v" + a + "." + b + "." + c
  }

  function Suffix(mark: char, s: Option<string>): string {
    if s.Some? then [mark] + s.value else ""
  }

  function StableTag(a: string, b: string, c: string, pre: Option<string>, build: Option<string>): string {
    CoreText(a, b, c) + (Suffix('-', pre) + Suffix('+', build))
  }

  lemma {:induction false} DigitRun(s: string, i: nat, end: nat)
    requires i <= end <= |s| && (forall k :: i <= k < end ==> IsDigit(s[k])) && (end < |s| ==> !IsDigit(s[end]))
    ensures DigitsEnd(s, i) == end
    decreases end - i
  {
    if i < end {
      DigitRun(s, i + 1, end);
    }
  }

  lemma NumberReads(s: string, i: nat, number: string)
    requires Has(s, i, number) && IsNumeric(number) && (i + |number| < |s| ==> !IsDigit(s[i + |number|]))
    ensures DigitsEnd(s, i) == i + |number| && DigitsAt(s, i) == number
  {
    HasChars(s, i, number);
    forall k | i <= k < i + |number| ensures IsDigit(s[k]) {
      assert s[i + (k - i)] == number[k - i];
    }
    DigitRun(s, i, i + |number|);
  }

  /** Where the parts of "v1.2.3" lie. */
  lemma CoreParts(s: string, i: nat, a: string, b: string, c: string) returns (x: nat, y: nat, z: nat)
    requires Has(s, i, CoreText(a, b, c))
    ensures x == i + 1 && y == x + |a| + 1 && z == y + |b| + 1 && z + |c| == i + |CoreText(a, b, c)| <= |s|
    ensures s[i] == 'v' && Has(s, x, a) && s[y - 1] == '.' && Has(s, y, b) && s[z - 1] == '.' && Has(s, z, c)
  {
    x := i + 1;
    y := x + |a| + 1;
    z := y + |b| + 1;
    HasConcat(s, i, "v" + a + "." + b + ".", c);
    HasConcat(s, i, "v" + a + "." + b, ".");
    HasConcat(s, i, "v" + a + ".", b);
    HasConcat(s, i, "v" + a, ".");
    HasConcat(s, i, "v", a);
    HasChars(s, i, "v");
    HasChars(s, y - 1, ".");
    HasChars(s, z - 1, ".");
  }

  /** Three numbers behind "v" make a core. */
  lemma CoreAtIs(s: string, i: nat, a: DigitText, x: nat, b: DigitText, y: nat, c: DigitText, z: nat)
    requires i + 1 < x && x + 1 < y && y + 1 < z <= |s| && s[i] == 'v'
    requires PointAfter(s, i + 1) == Some(x) && DigitsAt(s, i + 1) == a
    requires PointAfter(s, x + 1) == Some(y) && DigitsAt(s, x + 1) == b
    requires DigitsEnd(s, y + 1) == z && DigitsAt(s, y + 1) == c
    ensures CoreAt(s, i) == Some(Core(a, b, c, z))
  {
  }

  lemma CoreReads(s: string, i: nat, a: string, b: string, c: string, end: nat)
    requires Has(s, i, CoreText(a, b, c)) && end == i + |CoreText(a, b, c)|
    requires IsNumeric(a) && IsNumeric(b) && IsNumeric(c) && (end < |s| ==> !IsDigit(s[end]))
    ensures end <= |s| && CoreAt(s, i) == Some(Core(a, b, c, end))
  {
    var x, y, z := CoreParts(s, i, a, b, c);
    CorePartsRead(s, i, x, a, y, b, z, c);
  }

  lemma CorePartsRead(s: string, i: nat, x: nat, a: string, y: nat, b: string, z: nat, c: string)
    requires i < |s| && s[i] == 'v' && x == i + 1 && y == x + |a| + 1 && z == y + |b| + 1
    requires Has(s, x, a) && Has(s, y, b) && Has(s, z, c) && s[y - 1] == '.' && s[z - 1] == '.'
    requires IsNumeric(a) && IsNumeric(b) && IsNumeric(c) && (z + |c| < |s| ==> !IsDigit(s[z + |c|]))
    ensures CoreAt(s, i) == Some(Core(a, b, c, z + |c|))
  {
    NumberReads(s, x, a);
    NumberReads(s, y, b);
    NumberReads(s, z, c);
    CoreAtIs(s, i, a, y - 1, b, z - 1, c, z + |c|);
  }

  lemma PartsRead(s: string, i: nat, parts: string)
    requires Has(s, i, parts) && IsParts(parts) && (i + |parts| < |s| ==> !IsPart(s[i + |parts|]))
    ensures PartEnd(s, i) == i + |parts|
  {
    HasChars(s, i, parts);
    forall k | i <= k < i + |parts| ensures IsPart(s[k]) {
      assert s[i + (k - i)] == parts[k - i];
    }
    PartRun(s, i, i + |parts|);
  }

  /** What a tag of the stable form is read as. */
  function StableOf(a: string, b: string, c: string, pre: Option<string>): Option<StableVersion>
    requires IsNumeric(a) && IsNumeric(b) && IsNumeric(c)
  {
    if pre.Some? && Split('.', pre.value)[0] == NIGHTLY then None
    else Some(StableVersion(NatOf(a), NatOf(b), NatOf(c), if pre.Some? then Split('.', pre.value) else []))
  }

  lemma SuffixHas(s: string, i: nat, mark: char, part: Option<string>)
    requires Has(s, i, Suffix(mark, part))
    ensures part.Some? ==> i < |s| && s[i] == mark && Has(s, i + 1, part.value)
  {
    if part.Some? {
      HasConcat(s, i, [mark], part.value);
      HasChars(s, i, [mark]);
    }
  }

  lemma SuffixReads(tag: string, i: nat, mark: char, part: Option<string>)
    requires Has(tag, i, Suffix(mark, part)) && (part.Some? ==> IsParts(part.value))
    requires var end := i + |Suffix(mark, part)|; end < |tag| ==> !IsPart(tag[end]) && tag[end] != mark
    ensures SuffixEnd(tag, i, mark) == i + |Suffix(mark, part)|
    ensures part.Some? ==> tag[i + 1..SuffixEnd(tag, i, mark)] == part.value
  {
    SuffixHas(tag, i, mark, part);
    if part.Some? {
      PartsRead(tag, i + 1, part.value);
    }
  }

  /** What follows the numbers, of which nothing is left over. */
  lemma SuffixesRead(tag: string, core: Core, pre: Option<string>, build: Option<string>)
    requires Has(tag, core.end, Suffix('-', pre)) && Has(tag, core.end + |Suffix('-', pre)|, Suffix('+', build))
    requires core.end + |Suffix('-', pre)| + |Suffix('+', build)| == |tag|
    requires (pre.Some? ==> IsParts(pre.value)) && (build.Some? ==> IsParts(build.value))
    ensures StableAfter(tag, core)
         == if pre.Some? && Split('.', pre.value)[0] == NIGHTLY then None
            else Some(StableVersion(NatOf(core.major), NatOf(core.minor), NatOf(core.patch),
                                    if pre.Some? then Split('.', pre.value) else []))
  {
    SuffixHas(tag, core.end + |Suffix('-', pre)|, '+', build);
    SuffixReads(tag, core.end, '-', pre);
    SuffixReads(tag, core.end + |Suffix('-', pre)|, '+', build);
    StableAfterIs(tag, core, core.end + |Suffix('-', pre)|, pre);
  }

  lemma StableAfterIs(tag: string, core: Core, p: nat, pre: Option<string>)
    requires core.end <= p <= |tag| && SuffixEnd(tag, core.end, '-') == p && SuffixEnd(tag, p, '+') == |tag| != p + 1
    requires if pre.Some? then p > core.end + 1 && tag[core.end + 1..p] == pre.value else p == core.end
    ensures StableAfter(tag, core)
         == if pre.Some? && Split('.', pre.value)[0] == NIGHTLY then None
            else Some(StableVersion(NatOf(core.major), NatOf(core.minor), NatOf(core.patch),
                                    if pre.Some? then Split('.', pre.value) else []))
  {
  }

  lemma TagParts(head: string, x: string, y: string)
    ensures var tag := head + (x + y);
      Has(tag, 0, head) && Has(tag, |head|, x) && Has(tag, |head| + |x|, y) && |head| + |x| + |y| == |tag|
  {
    var tag := head + (x + y);
    assert Has(tag, 0, tag);
    HasConcat(tag, 0, head, x + y);
    HasConcat(tag, |head|, x, y);
  }

  /** A tag of the stable form is read as its numbers and identifiers. */
  lemma StableTagReads(a: string, b: string, c: string, pre: Option<string>, build: Option<string>)
    requires IsNumeric(a) && IsNumeric(b) && IsNumeric(c)
    requires (pre.Some? ==> IsParts(pre.value)) && (build.Some? ==> IsParts(build.value))
    ensures ParseStableTag(StableTag(a, b, c, pre, build)) == StableOf(a, b, c, pre)
  {
    TagParts(CoreText(a, b, c), Suffix('-', pre), Suffix('+', build));
    StablePartsRead(StableTag(a, b, c, pre, build), a, b, c, |CoreText(a, b, c)|, pre, build);
  }

  lemma StablePartsRead(tag: string, a: string, b: string, c: string, end: nat, pre: Option<string>, build: Option<string>)
    requires IsNumeric(a) && IsNumeric(b) && IsNumeric(c)
    requires Has(tag, 0, CoreText(a, b, c)) && end == |CoreText(a, b, c)|
    requires Has(tag, end, Suffix('-', pre)) && Has(tag, end + |Suffix('-', pre)|, Suffix('+', build))
    requires end + |Suffix('-', pre)| + |Suffix('+', build)| == |tag|
    requires (pre.Some? ==> IsParts(pre.value)) && (build.Some? ==> IsParts(build.value))
    ensures ParseStableTag(tag) == StableOf(a, b, c, pre)
  {
    SuffixHas(tag, end, '-', pre);
    SuffixHas(tag, end + |Suffix('-', pre)|, '+', build);
    CoreReads(tag, 0, a, b, c, end);
    SuffixesRead(tag, Core(a, b, c, end), pre, build);
  }

  lemma CoreIsText(s: string, i: nat) returns (a: string, b: string, c: string)
    requires i <= |s| && CoreAt(s, i).Some?
    ensures IsNumeric(a) && IsNumeric(b) && IsNumeric(c) && s[i..CoreAt(s, i).value.end] == CoreText(a, b, c)
  {
    var x := DigitsEnd(s, i + 1);
    var y := DigitsEnd(s, x + 1);
    var z := DigitsEnd(s, y + 1);
    a, b, c := s[i + 1..x], s[x + 1..y], s[y + 1..z];
    CorePieces(s, i, x, y, z);
    assert [s[i]] == "v" && [s[x]] == "." && [s[y]] == ".";
  }

  lemma CorePieces(s: string, i: nat, x: nat, y: nat, z: nat)
    requires i < x < y < z <= |s|
    ensures s[i..z] == [s[i]] + s[i + 1..x] + [s[x]] + s[x + 1..y] + [s[y]] + s[y + 1..z]
  {
  }

  lemma SuffixIsText(tag: string, i: nat, mark: char) returns (part: Option<string>)
    requires i <= |tag| && SuffixEnd(tag, i, mark) != i + 1
    ensures (part.Some? ==> IsParts(part.value)) && tag[i..SuffixEnd(tag, i, mark)] == Suffix(mark, part)
  {
    var end := SuffixEnd(tag, i, mark);
    part := if end > i then Some(tag[i + 1..end]) else None;
    if end > i {
      assert tag[i..end] == [tag[i]] + tag[i + 1..end];
    }
  }

  lemma SuffixesAreText(tag: string, core: Core) returns (pre: Option<string>, build: Option<string>)
    requires core.end <= |tag| && StableAfter(tag, core).Some?
    ensures (pre.Some? ==> IsParts(pre.value)) && (build.Some? ==> IsParts(build.value))
    ensures tag[core.end..] == Suffix('-', pre) + Suffix('+', build)
  {
    var p := SuffixEnd(tag, core.end, '-');
    pre := SuffixIsText(tag, core.end, '-');
    build := SuffixIsText(tag, p, '+');
    assert tag[core.end..] == tag[core.end..p] + tag[p..|tag|];
  }

  /** And only tags of that form are read at all. */
  lemma OnlyStableTagsRead(tag: string) returns (a: string, b: string, c: string, pre: Option<string>, build: Option<string>)
    requires ParseStableTag(tag).Some?
    ensures IsNumeric(a) && IsNumeric(b) && IsNumeric(c)
    ensures (pre.Some? ==> IsParts(pre.value)) && (build.Some? ==> IsParts(build.value))
    ensures tag == StableTag(a, b, c, pre, build)
  {
    var core := CoreAt(tag, 0).value;
    a, b, c := CoreIsText(tag, 0);
    pre, build := SuffixesAreText(tag, core);
    TwoPieces(tag, core.end);
  }

  lemma TwoPieces(s: string, i: nat)
    requires i <= |s|
    ensures s == s[0..i] + s[i..]
  {
  }

  function NightlyText(date: string, run: string): string {
    "-" + NIGHTLY + "." + date + "." + run
  }

  function NightlyTag(legacy: bool, a: string, b: string, c: string, date: string, run: string): string {
    (if legacy then NIGHTLY + "-" else "") + (CoreText(a, b, c) + NightlyText(date, run))
  }

  lemma NightlyParts(s: string, i: nat, date: string, run: string)
    requires Has(s, i, NightlyText(date, run))
    ensures i + 10 + |date| + |run| == i + |NightlyText(date, run)| <= |s|
    ensures s[i] == '-' && s[i + 1..i + 8] == NIGHTLY && s[i + 8] == '.' && s[i + 9 + |date|] == '.'
    ensures Has(s, i + 9, date) && Has(s, i + 10 + |date|, run)
  {
    HasConcat(s, i, "-" + NIGHTLY + "." + date + ".", run);
    HasConcat(s, i, "-" + NIGHTLY + "." + date, ".");
    HasConcat(s, i, "-" + NIGHTLY + ".", date);
    HasConcat(s, i, "-" + NIGHTLY, ".");
    HasConcat(s, i, "-", NIGHTLY);
    HasChars(s, i, "-");
    HasChars(s, i + 8, ".");
    HasChars(s, i + 9 + |date|, ".");
  }

  lemma NightlyTailReads(s: string, i: nat, date: string, run: string)
    requires Has(s, i, NightlyText(date, run)) && i + |NightlyText(date, run)| == |s|
    requires IsNumeric(date) && |date| == 8 && IsNumeric(run)
    ensures NightlyTail(s, i) == Some((date, run))
  {
    NightlyParts(s, i, date, run);
    NumberReads(s, i + 9, date);
    NumberReads(s, i + 18, run);
  }

  /** A nightly tag, of the current form or the older one, is read as its five numbers. */
  lemma NightlyTagReads(legacy: bool, a: string, b: string, c: string, date: string, run: string)
    requires IsNumeric(a) && IsNumeric(b) && IsNumeric(c) && IsNumeric(date) && |date| == 8 && IsNumeric(run)
    ensures ParseNightlyTag(NightlyTag(legacy, a, b, c, date, run))
         == Some(NightlyVersion(NatOf(a), NatOf(b), NatOf(c), NatOf(date), NatOf(run)))
  {
    var start := if legacy then NIGHTLY + "-" else "";
    TagParts(start, CoreText(a, b, c), NightlyText(date, run));
    NightlyPartsRead(NightlyTag(legacy, a, b, c, date, run), legacy, start, a, b, c, |start| + |CoreText(a, b, c)|, date, run);
  }

  lemma NightlyPartsRead(tag: string, legacy: bool, start: string, a: string, b: string, c: string, end: nat, date: string, run: string)
    requires start == (if legacy then NIGHTLY + "-" else "") && Has(tag, 0, start)
    requires Has(tag, |start|, CoreText(a, b, c)) && end == |start| + |CoreText(a, b, c)|
    requires Has(tag, end, NightlyText(date, run)) && end + |NightlyText(date, run)| == |tag|
    requires IsNumeric(a) && IsNumeric(b) && IsNumeric(c) && IsNumeric(date) && |date| == 8 && IsNumeric(run)
    ensures ParseNightlyTag(tag) == Some(NightlyVersion(NatOf(a), NatOf(b), NatOf(c), NatOf(date), NatOf(run)))
  {
    var x, y, z := CoreParts(tag, |start|, a, b, c);
    LegacyStart(tag, start, legacy);
    NightlyParts(tag, end, date, run);
    CoreReads(tag, |start|, a, b, c, end);
    NightlyTailReads(tag, end, date, run);
    ParsedNightly(tag, |start|, Core(a, b, c, end), (date, run));
  }

  lemma ParsedNightly(tag: string, start: nat, core: Core, tail: (DigitText, DigitText))
    requires start == (if NIGHTLY + "-" <= tag then |NIGHTLY| + 1 else 0) <= |tag|
    requires CoreAt(tag, start) == Some(core) && core.end <= |tag| && NightlyTail(tag, core.end) == Some(tail)
    ensures ParseNightlyTag(tag)
         == Some(NightlyVersion(NatOf(core.major), NatOf(core.minor), NatOf(core.patch), NatOf(tail.0), NatOf(tail.1)))
  {
  }

  lemma LegacyStart(tag: string, start: string, legacy: bool)
    requires start == (if legacy then NIGHTLY + "-" else "") && Has(tag, 0, start) && |start| < |tag| && tag[|start|] == 'v'
    ensures NIGHTLY + "-" <= tag <==> legacy
  {
    assert NIGHTLY + "-" <= tag ==> (NIGHTLY + "-")[0] == tag[0];
  }

  /** And only such tags are. */
  lemma OnlyNightlyTagsRead(tag: string) returns (legacy: bool, a: string, b: string, c: string, date: string, run: string)
    requires ParseNightlyTag(tag).Some?
    ensures IsNumeric(a) && IsNumeric(b) && IsNumeric(c) && IsNumeric(date) && |date| == 8 && IsNumeric(run)
    ensures tag == NightlyTag(legacy, a, b, c, date, run)
  {
    legacy := NIGHTLY + "-" <= tag;
    var start: nat := if legacy then |NIGHTLY| + 1 else 0;
    a, b, c := CoreIsText(tag, start);
    var e := CoreAt(tag, start).value.end;
    date, run := NightlyTailText(tag, e);
    TagOfPieces(tag, start, e, legacy, CoreText(a, b, c), NightlyText(date, run));
  }

  lemma TagOfPieces(tag: string, i: nat, j: nat, legacy: bool, x: string, y: string)
    requires i <= j <= |tag| && i == (if legacy then |NIGHTLY| + 1 else 0) && (legacy ==> NIGHTLY + "-" <= tag)
    requires tag[i..j] == x && tag[j..] == y
    ensures tag == (if legacy then NIGHTLY + "-" else "") + (x + y)
  {
    ThreePieces(tag, i, j);
  }

  lemma ThreePieces(s: string, i: nat, j: nat)
    requires i <= j <= |s|
    ensures s == s[..i] + (s[i..j] + s[j..])
  {
  }

  lemma NightlyTailText(s: string, i: nat) returns (date: string, run: string)
    requires i <= |s| && NightlyTail(s, i).Some?
    ensures IsNumeric(date) && |date| == 8 && IsNumeric(run) && s[i..] == NightlyText(date, run)
  {
    date, run := s[i + 9..i + 17], s[i + 18..];
    assert s[i..] == [s[i]] + s[i + 1..i + 8] + [s[i + 8]] + date + [s[i + 17]] + run;
  }

  /** The previous stable tag, for any text order. */
  lemma PreviousStableTag(text: Comparison<string>, currentTag: string, tags: seq<string>)
    requires Order(text) && ParseStableTag(currentTag).Some?
    ensures var r := ResolvePrevious(ParseStableTag, StableOrder(text), currentTag, tags);
      var current := ParseStableTag(currentTag).value;
      && r.Ok?
      && (r.value.None? <==> NoneBelow(ParseStableTag, StableOrder(text), current, tags))
      && (r.value.Some? ==> exists i: nat ::
            FirstGreatest(ParseStableTag, StableOrder(text), current, tags, i) && r.value.value == tags[i])
  {
    StableVersionsAreOrdered(text);
    PreviousIsFirstGreatest(ParseStableTag, StableOrder(text), currentTag, tags);
  }

  lemma PreviousNightlyTag(currentTag: string, tags: seq<string>)
    requires ParseNightlyTag(currentTag).Some?
    ensures var r := ResolvePrevious(ParseNightlyTag, NightlyOrder(), currentTag, tags);
      var current := ParseNightlyTag(currentTag).value;
      && r.Ok?
      && (r.value.None? <==> NoneBelow(ParseNightlyTag, NightlyOrder(), current, tags))
      && (r.value.Some? ==> exists i: nat ::
            FirstGreatest(ParseNightlyTag, NightlyOrder(), current, tags, i) && r.value.value == tags[i])
  {
    NightlyVersionsAreOrdered();
    PreviousIsFirstGreatest(ParseNightlyTag, NightlyOrder(), currentTag, tags);
  }

  /** In terms of the precedence: the previous stable tag precedes the current one, no tag that
      does follows it, and there is none exactly if no tag precedes the current one. */
  lemma PreviousStableIsNearest(text: Comparison<string>, currentTag: string, tags: seq<string>, other: string)
    requires Order(text) && ParseStableTag(currentTag).Some? && other in tags && ParseStableTag(other).Some?
    requires StableBelow(text, ParseStableTag(other).value, ParseStableTag(currentTag).value)
    ensures var r := ResolvePrevious(ParseStableTag, StableOrder(text), currentTag, tags);
      && r.Ok? && r.value.Some? && r.value.value in tags && ParseStableTag(r.value.value).Some?
      && StableBelow(text, ParseStableTag(r.value.value).value, ParseStableTag(currentTag).value)
      && !StableBelow(text, ParseStableTag(r.value.value).value, ParseStableTag(other).value)
  {
    var current, o := ParseStableTag(currentTag).value, ParseStableTag(other).value;
    PreviousStableTag(text, currentTag, tags);
    StableVersionsAreOrdered(text);
    StablePrecedence(text, o, current);
    var j :| 0 <= j < |tags| && tags[j] == other;
    assert Below(ParseStableTag, StableOrder(text), current, tags[j]);
    var r := ResolvePrevious(ParseStableTag, StableOrder(text), currentTag, tags).value;
    var i: nat :| FirstGreatest(ParseStableTag, StableOrder(text), current, tags, i) && r.value == tags[i];
    var found := ParseStableTag(tags[i]).value;
    StablePrecedence(text, found, current);
    StablePrecedence(text, found, o);
    StablePrecedence(text, o, found);
  }

  lemma PreviousNightlyIsNearest(currentTag: string, tags: seq<string>, other: string)
    requires ParseNightlyTag(currentTag).Some? && other in tags && ParseNightlyTag(other).Some?
    requires NightlyBelow(ParseNightlyTag(other).value, ParseNightlyTag(currentTag).value)
    ensures var r := ResolvePrevious(ParseNightlyTag, NightlyOrder(), currentTag, tags);
      && r.Ok? && r.value.Some? && r.value.value in tags && ParseNightlyTag(r.value.value).Some?
      && NightlyBelow(ParseNightlyTag(r.value.value).value, ParseNightlyTag(currentTag).value)
      && !NightlyBelow(ParseNightlyTag(r.value.value).value, ParseNightlyTag(other).value)
  {
    var current, o := ParseNightlyTag(currentTag).value, ParseNightlyTag(other).value;
    PreviousNightlyTag(currentTag, tags);
    NightlyVersionsAreOrdered();
    NightlyPrecedence(o, current);
    var j :| 0 <= j < |tags| && tags[j] == other;
    assert Below(ParseNightlyTag, NightlyOrder(), current, tags[j]);
    var r := ResolvePrevious(ParseNightlyTag, NightlyOrder(), currentTag, tags).value;
    var i: nat :| FirstGreatest(ParseNightlyTag, NightlyOrder(), current, tags, i) && r.value == tags[i];
    var found := ParseNightlyTag(tags[i]).value;
    NightlyPrecedence(found, current);
    NightlyPrecedence(found, o);
    NightlyPrecedence(o, found);
  }
}
