/** White space, trimming, splitting and joining, as JavaScript's strings have them. */
module Text {
  import opened Prelude

  predicate IsSpace(c: char) {
    || '\t' <= c <= '\r' || c == ' ' || c == '\U{A0}' || c == '\U{1680}'
    || '\U{2000}' <= c <= '\U{200A}' || c == '\U{2028}' || c == '\U{2029}'
    || c == '\U{202F}' || c == '\U{205F}' || c == '\U{3000}' || c == '\U{FEFF}'
  }

  function TrimStart(s: string): (r: string)
    ensures |r| <= |s|
    ensures r != "" ==> !IsSpace(r[0])
  {
    if s != "" && IsSpace(s[0]) then TrimStart(s[1..]) else s
  }

  function TrimEnd(s: string): (r: string)
    ensures |r| <= |s|
    ensures r != "" ==> !IsSpace(r[|r| - 1])
  {
    if s != "" && IsSpace(s[|s| - 1]) then TrimEnd(s[..|s| - 1]) else s
  }

  function Trim(s: string): string {
    TrimEnd(TrimStart(s))
  }

  predicate IsTrimmed(s: string) {
    s == "" || (!IsSpace(s[0]) && !IsSpace(s[|s| - 1]))
  }

  lemma TrimmedIsFixed(s: string)
    requires IsTrimmed(s)
    ensures TrimStart(s) == s && TrimEnd(s) == s && Trim(s) == s
  {
  }

  predicate IsLetter(c: char) {
    'a' <= c <= 'z' || 'A' <= c <= 'Z'
  }

  predicate IsDigit(c: char) {
    '0' <= c <= '9'
  }

  predicate AllDigits(s: string) {
    forall k :: 0 <= k < |s| ==> IsDigit(s[k])
  }

  function DigitValue(c: char): nat
    requires IsDigit(c)
  {
    c as nat - '0' as nat
  }

  /** The number that decimal digits write. */
  type DigitText = s: string | AllDigits(s)

  function NatOf(s: string): nat
    requires AllDigits(s)
  {
    if s == "" then 0 else NatOf(s[..|s| - 1]) * 10 + DigitValue(s[|s| - 1])
  }

  /** The decimal digits of a number. */
  function Digits(n: nat): (r: string)
    ensures r != "" && AllDigits(r)
  {
    (if n < 10 then "" else Digits(n / 10)) + [('0' as nat + n % 10) as char]
  }

  function Split(separator: char, s: string): (r: seq<string>)
    ensures |r| >= 1
  {
    if s == "" then [""]
    else
      var rest := Split(separator, s[1..]);
      if s[0] == separator then [""] + rest else [[s[0]] + rest[0]] + rest[1..]
  }

  function Join(separator: char, parts: seq<string>): string {
    if parts == [] then ""
    else if |parts| == 1 then parts[0]
    else parts[0] + [separator] + Join(separator, parts[1..])
  }

  ghost predicate AllFreeOf(parts: seq<string>, c: char) {
    forall k :: 0 <= k < |parts| ==> FreeOf(parts[k], c)
  }

  lemma {:induction false} SplitWord(separator: char, word: string)
    requires FreeOf(word, separator)
    ensures Split(separator, word) == [word]
  {
    if word != "" {
      SplitWord(separator, word[1..]);
      assert [word[0]] + word[1..] == word;
    }
  }

  lemma {:induction false} SplitAfterWord(separator: char, word: string, rest: string)
    requires FreeOf(word, separator)
    ensures Split(separator, word + [separator] + rest) == [word] + Split(separator, rest)
  {
    var s := word + [separator] + rest;
    if word == "" {
      assert s[1..] == rest;
    } else {
      assert s[1..] == word[1..] + [separator] + rest;
      SplitAfterWord(separator, word[1..], rest);
      assert s[0] == word[0] && [word[0]] + word[1..] == word;
      assert ([word[1..]] + Split(separator, rest))[1..] == Split(separator, rest);
    }
  }

  /** Splitting undoes joining. */
  lemma {:induction false} SplitJoin(separator: char, parts: seq<string>)
    requires parts != [] && AllFreeOf(parts, separator)
    ensures Split(separator, Join(separator, parts)) == parts
  {
    if |parts| == 1 {
      SplitWord(separator, parts[0]);
    } else {
      SplitAfterWord(separator, parts[0], Join(separator, parts[1..]));
      SplitJoin(separator, parts[1..]);
    }
  }

  /** Joining undoes splitting, and the parts are free of the separator. */
  lemma {:induction false} JoinSplit(separator: char, s: string)
    ensures Join(separator, Split(separator, s)) == s && AllFreeOf(Split(separator, s), separator)
  {
    if s != "" {
      JoinSplit(separator, s[1..]);
      var rest := Split(separator, s[1..]);
      if s[0] == separator {
        assert ([""] + rest)[1..] == rest;
        assert "" + [separator] + s[1..] == s;
      } else {
        var r := [[s[0]] + rest[0]] + rest[1..];
        assert r[1..] == rest[1..];
        if |rest| == 1 {
          assert [s[0]] + rest[0] == s;
        } else {
          assert [s[0]] + rest[0] + [separator] + Join(separator, rest[1..]) == [s[0]] + (rest[0] + [separator] + Join(separator, rest[1..]));
          assert [s[0]] + s[1..] == s;
        }
      }
    }
  }

  /** The parts once `c` is put in front. */
  function Prepended(separator: char, c: char, parts: seq<string>): seq<string>
    requires parts != []
  {
    if c == separator then [""] + parts else [[c] + parts[0]] + parts[1..]
  }

  lemma SplitCons(separator: char, c: char, s: string)
    ensures Split(separator, [c] + s) == Prepended(separator, c, Split(separator, s))
  {
    assert ([c] + s)[1..] == s;
  }

  lemma PrependedConcat(separator: char, c: char, x: seq<string>, y: seq<string>)
    requires x != []
    ensures Prepended(separator, c, x + y) == Prepended(separator, c, x) + y
  {
    assert (x + y)[0] == x[0] && (x + y)[1..] == x[1..] + y;
  }

  /** A separator always splits. */
  lemma {:induction false} SplitConcat(separator: char, a: string, b: string)
    ensures Split(separator, a + [separator] + b) == Split(separator, a) + Split(separator, b)
  {
    if a == "" {
      SplitCons(separator, separator, b);
      assert "" + [separator] + b == [separator] + b;
    } else {
      var c, t := a[0], a[1..];
      SplitConcat(separator, t, b);
      SplitCons(separator, c, t);
      SplitCons(separator, c, t + [separator] + b);
      assert [c] + t == a && [c] + (t + [separator] + b) == a + [separator] + b;
      PrependedConcat(separator, c, Split(separator, t), Split(separator, b));
    }
  }

  function GrowLast(parts: seq<string>, c: char): seq<string>
    requires parts != []
  {
    parts[..|parts| - 1] + [parts[|parts| - 1] + [c]]
  }

  /** Any other character at the end goes to the last part. */
  lemma {:induction false} SplitPush(separator: char, s: string, c: char)
    requires c != separator
    ensures Split(separator, s + [c]) == GrowLast(Split(separator, s), c)
  {
    if s == "" {
      SplitCons(separator, c, "");
      assert "" + [c] == [c] == [c] + "";
    } else {
      var d, t := s[0], s[1..];
      SplitPush(separator, t, c);
      SplitCons(separator, d, t);
      SplitCons(separator, d, t + [c]);
      assert [d] + t == s && [d] + (t + [c]) == s + [c];
      GrowLastCons(separator, Split(separator, t), d, c);
    }
  }

  lemma GrowLastCons(separator: char, parts: seq<string>, d: char, c: char)
    requires parts != []
    ensures GrowLast(Prepended(separator, d, parts), c) == Prepended(separator, d, GrowLast(parts, c))
  {
    if |parts| == 1 {
      assert [d] + parts[0] + [c] == [d] + (parts[0] + [c]);
    }
  }

  /** A function that ignores white space at the end ignores all of it. */
  lemma {:induction false} TrimEndIgnored<T>(f: string -> T, s: string)
    requires forall t, c :: IsSpace(c) ==> f(t + [c]) == f(t)
    ensures f(TrimEnd(s)) == f(s)
    decreases |s|
  {
    if s != "" && IsSpace(s[|s| - 1]) {
      TrimEndIgnored(f, s[..|s| - 1]);
      assert s[..|s| - 1] + [s[|s| - 1]] == s;
    }
  }

  lemma {:induction false} TrimStartPush(s: string, c: char)
    requires IsSpace(c)
    ensures TrimStart(s + [c]) == if TrimStart(s) == "" then "" else TrimStart(s) + [c]
  {
    if s == "" {
      assert s + [c] == [c] && [c][1..] == "";
    } else {
      assert (s + [c])[0] == s[0];
      if IsSpace(s[0]) {
        assert (s + [c])[1..] == s[1..] + [c];
        TrimStartPush(s[1..], c);
      }
    }
  }

  /** White space at the end is trimmed away. */
  lemma TrimPush(s: string, c: char)
    requires IsSpace(c)
    ensures Trim(s + [c]) == Trim(s)
  {
    TrimStartPush(s, c);
    var t := TrimStart(s);
    if t != "" {
      assert (t + [c])[..|t|] == t;
    }
  }

  lemma {:induction false} TrimEndConcat(a: string, b: string)
    ensures TrimEnd(a + b) == if TrimEnd(b) == "" then TrimEnd(a) else a + TrimEnd(b)
    decreases |b|
  {
    var s := a + b;
    if b == "" {
      assert s == a;
    } else {
      assert s[|s| - 1] == b[|b| - 1];
      if IsSpace(b[|b| - 1]) {
        assert s[..|s| - 1] == a + b[..|b| - 1];
        TrimEndConcat(a, b[..|b| - 1]);
      }
    }
  }

  // ----- parts of a sequence -----

  /** `s` has `part` at `i`. */
  ghost predicate Has<T>(s: seq<T>, i: nat, part: seq<T>) {
    i + |part| <= |s| && s[i..i + |part|] == part
  }

  lemma HasConcat<T>(s: seq<T>, i: nat, a: seq<T>, b: seq<T>)
    ensures Has(s, i, a + b) <==> Has(s, i, a) && Has(s, i + |a|, b)
  {
    if i + |a + b| <= |s| {
      var t := s[i..i + |a + b|];
      assert t == s[i..i + |a|] + s[i + |a|..i + |a + b|];
      assert t[..|a|] == s[i..i + |a|] && t[|a|..] == s[i + |a|..i + |a + b|];
      assert (a + b)[..|a|] == a && (a + b)[|a|..] == b;
    }
  }

  lemma HasChars<T>(s: seq<T>, i: nat, part: seq<T>)
    requires Has(s, i, part)
    ensures forall k :: 0 <= k < |part| ==> s[i + k] == part[k]
  {
    forall k | 0 <= k < |part| ensures s[i + k] == part[k] {
      assert s[i..i + |part|][k] == s[i + k];
    }
  }

  // ----- the order of texts -----

  /** Code unit by code unit, a proper prefix first. */
  predicate LexLe(a: string, b: string) {
    a == "" || (b != "" && (a[0] < b[0] || (a[0] == b[0] && LexLe(a[1..], b[1..]))))
  }

  lemma {:induction false} LexLeTotal(a: string, b: string)
    ensures LexLe(a, b) || LexLe(b, a)
    ensures LexLe(a, b) && LexLe(b, a) ==> a == b
  {
    if a != "" && b != "" && a[0] == b[0] {
      LexLeTotal(a[1..], b[1..]);
      assert a == [a[0]] + a[1..] && b == [b[0]] + b[1..];
    }
  }

  lemma {:induction false} LexLeTransitive(a: string, b: string, c: string)
    requires LexLe(a, b) && LexLe(b, c)
    ensures LexLe(a, c)
  {
    if a != "" && a[0] == b[0] == c[0] {
      LexLeTransitive(a[1..], b[1..], c[1..]);
    }
  }

  /** The first text is a prefix of the second, or smaller where they first differ. */
  lemma {:induction false} LexLeIff(a: string, b: string)
    ensures LexLe(a, b) <==> a <= b || exists k: nat :: SmallerAt(a, b, k)
    decreases |a|
  {
    if a != "" && b != "" {
      if a[0] == b[0] {
        LexLeIff(a[1..], b[1..]);
        assert a == [a[0]] + a[1..] && b == [b[0]] + b[1..];
        if k: nat :| SmallerAt(a, b, k) {
          assert SmallerAt(a[1..], b[1..], k - 1);
        }
        if k: nat :| SmallerAt(a[1..], b[1..], k) {
          assert SmallerAt(a, b, k + 1);
        }
      } else {
        assert SmallerAt(a, b, 0) <==> a[0] < b[0];
        forall k: nat | SmallerAt(a, b, k) ensures k == 0 {
        }
      }
    }
  }

  ghost predicate SmallerAt(a: string, b: string, k: nat) {
    k < |a| && k < |b| && a[k] < b[k] && forall j :: 0 <= j < k ==> a[j] == b[j]
  }

  /** The classes of characters, one by one. */
  lemma CharacterClasses(c: char)
    ensures IsDigit(c) <==> c in "0123456789"
    ensures IsLetter(c) <==> c in "abcdefghijklmnopqrstuvwxyz" || c in "ABCDEFGHIJKLMNOPQRSTUVWXYZ"
  {
  }

  lemma SpaceCharacters(c: char)
    requires c as int < 128
    ensures IsSpace(c) <==> c in "\t\n\U{B}\U{C}\r "
  {
  }
}
