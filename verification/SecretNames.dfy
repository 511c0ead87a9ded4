/**
 * The names under which provider secrets are stored (apps/server/src/serverSettings.ts:58-63):
 * base64url of the instance id and of the variable name, joined by "-". Texts are ASCII, as the
 * schema patterns of ids and variable names demand (packages/contracts/src/providerInstance.ts).
 */
module SecretNames {
  import opened Prelude
  import opened Text
  import Secrets = SettingsSecrets

  const PREFIX := "provider-env-"

  predicate Ascii(s: string) {
    forall k :: 0 <= k < |s| ==> s[k] < '\U{80}'
  }

  function Bytes(s: string): (r: seq<nat>)
    ensures |r| == |s| && forall k :: 0 <= k < |s| ==> r[k] == s[k] as nat
  {
    seq(|s|, k requires 0 <= k < |s| => s[k] as nat)
  }

  predicate IsBytes(bs: seq<nat>) {
    forall k :: 0 <= k < |bs| ==> bs[k] < 256
  }

  predicate IsSextets(vs: seq<nat>) {
    forall k :: 0 <= k < |vs| ==> vs[k] < 64
  }

  /** Three bytes make four sextets. */
  function Group(a: nat, b: nat, c: nat): (r: seq<nat>)
    requires a < 256 && b < 256 && c < 256
    ensures |r| == 4 && IsSextets(r)
  {
    [a / 4, a % 4 * 16 + b / 16, b % 16 * 4 + c / 64, c % 64]
  }

  /** One or two bytes left over make two or three, unpadded. */
  function Sextets(bs: seq<nat>): (r: seq<nat>)
    requires IsBytes(bs)
    ensures IsSextets(r)
  {
    if |bs| == 0 then []
    else if |bs| == 1 then Group(bs[0], 0, 0)[..2]
    else if |bs| == 2 then Group(bs[0], bs[1], 0)[..3]
    else Group(bs[0], bs[1], bs[2]) + Sextets(bs[3..])
  }

  function Symbol(v: nat): char
    requires v < 64
  {
    if v < 26 then 'A' + v as char
    else if v < 52 then 'a' + (v - 26) as char
    else if v < 62 then '0' + (v - 52) as char
    else if v == 62 then '-'
    else '_'
  }

  function Symbols(vs: seq<nat>): (r: string)
    requires IsSextets(vs)
    ensures |r| == |vs| && forall k :: 0 <= k < |vs| ==> r[k] == Symbol(vs[k])
  {
    seq(|vs|, k requires 0 <= k < |vs| => Symbol(vs[k]))
  }

  function Base64Url(s: string): string
    requires Ascii(s)
  {
    Symbols(Sextets(Bytes(s)))
  }

  function SecretName(id: string, name: string): string
    requires Ascii(id) && Ascii(name)
  {
    PREFIX + Base64Url(id) + ['-'] + Base64Url(name)
  }

  // ----- the schema patterns -----

  /** A letter, then letters, digits, "_" and "-". */
  predicate IsInstanceId(s: string) {
    s != "" && IsLetter(s[0]) && forall k :: 0 <= k < |s| ==> IsLetter(s[k]) || IsDigit(s[k]) || s[k] == '_' || s[k] == '-'
  }

  /** A letter or "_", then letters, digits and "_". */
  predicate IsVariableName(s: string) {
    s != "" && !IsDigit(s[0]) && forall k :: 0 <= k < |s| ==> IsLetter(s[k]) || IsDigit(s[k]) || s[k] == '_'
  }

  predicate IsValidPair(id: string, name: string)
    ensures IsValidPair(id, name) ==> Ascii(id) && Ascii(name)
  {
    IsInstanceId(id) && IsVariableName(name)
  }

  /** The alphabet of section 5 of RFC 4648: "A" to "Z", "a" to "z", "0" to "9", "-", "_". */
  lemma SymbolsAreTheAlphabet(v: nat)
    requires v < 63
    ensures Symbol(0) == 'A' && Symbol(25) == 'Z' && Symbol(26) == 'a' && Symbol(51) == 'z'
    ensures Symbol(52) == '0' && Symbol(61) == '9' && Symbol(62) == '-' && Symbol(63) == '_'
    ensures v !in {25, 51, 61, 62} ==> Symbol(v + 1) as int == Symbol(v) as int + 1
  {
  }

  lemma VectorOf(s: string, bs: seq<nat>, vs: seq<nat>, r: string)
    requires Ascii(s) && Bytes(s) == bs && Sextets(bs) == vs && |r| == |vs|
    requires forall k :: 0 <= k < |vs| ==> vs[k] < 64 && r[k] == Symbol(vs[k])
    ensures Base64Url(s) == r
  {
  }

  lemma VectorOne()
    ensures Base64Url("f") == "Zg"
  {
    var bs, vs := [102], [25, 32];
    assert Group(102, 0, 0)[..2] == vs;
    VectorOf("f", bs, vs, "Zg");
  }

  lemma VectorTwo()
    ensures Base64Url("fo") == "Zm8"
  {
    var bs, vs := [102, 111], [25, 38, 60];
    assert Group(102, 111, 0)[..3] == vs;
    VectorOf("fo", bs, vs, "Zm8");
  }

  lemma VectorThree()
    ensures Base64Url("foo") == "Zm9v"
  {
    var bs, vs := [102, 111, 111], [25, 38, 61, 47];
    assert bs[3..] == [] && Sextets([]) == [];
    assert Group(102, 111, 111) + [] == vs;
    VectorOf("foo", bs, vs, "Zm9v");
  }

  /** Longer texts are encoded three bytes at a time. */
  lemma ThreeBytesAtATime(a: string, b: string)
    requires Ascii(a) && Ascii(b) && |a| == 3
    ensures Ascii(a + b) && Base64Url(a + b) == Base64Url(a) + Base64Url(b)
  {
    var x, y := Bytes(a), Bytes(b);
    assert Bytes(a + b) == x + y && (x + y)[3..] == y && x[3..] == [];
    assert Sextets(x) == Group(x[0], x[1], x[2]) + [];
    assert Sextets(x + y) == Group(x[0], x[1], x[2]) + Sextets(y);
  }

  /** Test vectors of section 10 of RFC 4648, without padding. */
  lemma TestVectors()
    ensures Base64Url("f") == "Zg" && Base64Url("fo") == "Zm8" && Base64Url("foo") == "Zm9v"
  {
    VectorOne();
    VectorTwo();
    VectorThree();
  }

  /** What the schema patterns take and refuse. */
  lemma PatternExamples()
    ensures IsInstanceId("cx_2-B") && !IsInstanceId("") && !IsInstanceId("2codex") && !IsInstanceId("a.b") && !IsInstanceId("-a")
    ensures IsVariableName("_KEY2") && !IsVariableName("") && !IsVariableName("2KEY") && !IsVariableName("A-B")
  {
    var dotted, dashed := "a.b", "A-B";
    assert dotted[1] == '.' && dashed[1] == '-';
  }

  // ----- base64url is injective -----

  lemma GroupInjective(a: nat, b: nat, c: nat, a': nat, b': nat, c': nat)
    requires a < 256 && b < 256 && c < 256 && a' < 256 && b' < 256 && c' < 256
    ensures Group(a, b, c) == Group(a', b', c') ==> a == a' && b == b' && c == c'
    ensures Group(a, b, 0)[..3] == Group(a', b', 0)[..3] ==> a == a' && b == b'
    ensures Group(a, 0, 0)[..2] == Group(a', 0, 0)[..2] ==> a == a'
  {
    var g, h := Group(a, b, c), Group(a', b', c');
    if g == h {
      assert g[0] == h[0] && g[1] == h[1] && g[2] == h[2] && g[3] == h[3];
    }
    var g2, h2 := Group(a, b, 0)[..3], Group(a', b', 0)[..3];
    if g2 == h2 {
      assert g2[0] == h2[0] && g2[1] == h2[1] && g2[2] == h2[2];
    }
    var g1, h1 := Group(a, 0, 0)[..2], Group(a', 0, 0)[..2];
    if g1 == h1 {
      assert g1[0] == h1[0] && g1[1] == h1[1];
    }
  }

  lemma {:induction false} SextetsInjective(x: seq<nat>, y: seq<nat>)
    requires IsBytes(x) && IsBytes(y) && Sextets(x) == Sextets(y)
    ensures x == y
    decreases |x|
  {
    var u, v := Sextets(x), Sextets(y);
    if |x| >= 3 && |y| >= 3 {
      var g, h := Group(x[0], x[1], x[2]), Group(y[0], y[1], y[2]);
      assert g == u[..4] && h == v[..4] && u[4..] == Sextets(x[3..]) && v[4..] == Sextets(y[3..]);
      GroupInjective(x[0], x[1], x[2], y[0], y[1], y[2]);
      SextetsInjective(x[3..], y[3..]);
      assert x == [x[0], x[1], x[2]] + x[3..] && y == [y[0], y[1], y[2]] + y[3..];
    } else {
      assert |u| == |v|;
      assert |x| == |y|;
      if |x| == 1 {
        GroupInjective(x[0], 0, 0, y[0], 0, 0);
      } else if |x| == 2 {
        GroupInjective(x[0], x[1], 0, y[0], y[1], 0);
      }
    }
  }

  lemma SymbolInjective(a: nat, b: nat)
    requires a < 64 && b < 64 && Symbol(a) == Symbol(b)
    ensures a == b
  {
  }

  lemma SymbolsInjective(x: seq<nat>, y: seq<nat>)
    requires IsSextets(x) && IsSextets(y) && Symbols(x) == Symbols(y)
    ensures x == y
  {
    assert |x| == |Symbols(x)| == |Symbols(y)| == |y|;
    forall k | 0 <= k < |x| ensures x[k] == y[k] {
      assert Symbols(x)[k] == Symbols(y)[k];
      SymbolInjective(x[k], y[k]);
    }
  }

  lemma Base64UrlInjective(s: string, t: string)
    requires Ascii(s) && Ascii(t) && Base64Url(s) == Base64Url(t)
    ensures s == t
  {
    SymbolsInjective(Sextets(Bytes(s)), Sextets(Bytes(t)));
    SextetsInjective(Bytes(s), Bytes(t));
    assert |s| == |t|;
    forall k | 0 <= k < |s| ensures s[k] == t[k] {
      assert Bytes(s)[k] == Bytes(t)[k];
    }
  }

  // ----- and writes no dash for ordinary text -----

  /** An ASCII text without ">" and "~". */
  ghost predicate Dashless(bs: seq<nat>) {
    forall k :: 0 <= k < |bs| ==> bs[k] < 128 && bs[k] != 0x3E && bs[k] != 0x7E
  }

  lemma DashlessGroup(a: nat, b: nat, c: nat)
    requires a < 128 && b < 128 && c < 128 && c != 0x3E && c != 0x7E
    ensures forall k :: 0 <= k < 4 ==> Group(a, b, c)[k] != 62
  {
  }

  lemma {:induction false} DashlessSextets(bs: seq<nat>)
    requires Dashless(bs) && IsBytes(bs)
    ensures forall k :: 0 <= k < |Sextets(bs)| ==> Sextets(bs)[k] != 62
    decreases |bs|
  {
    if |bs| == 1 {
      DashlessGroup(bs[0], 0, 0);
    } else if |bs| == 2 {
      DashlessGroup(bs[0], bs[1], 0);
    } else if |bs| >= 3 {
      DashlessGroup(bs[0], bs[1], bs[2]);
      DashlessSextets(bs[3..]);
    }
  }

  lemma NameIsDashless(name: string)
    requires IsVariableName(name)
    ensures Ascii(name) && FreeOf(Base64Url(name), '-')
  {
    assert Ascii(name);
    DashlessSextets(Bytes(name));
  }

  /** Two valid (instance, variable) pairs never share a secret. */
  lemma SecretNameInjective(id: string, name: string, id': string, name': string)
    requires IsValidPair(id, name) && IsValidPair(id', name') && SecretName(id, name) == SecretName(id', name')
    ensures id == id' && name == name'
  {
    NameIsDashless(name);
    NameIsDashless(name');
    SplitAtLast('-', PREFIX + Base64Url(id), Base64Url(name), PREFIX + Base64Url(id'), Base64Url(name'));
    assert (PREFIX + Base64Url(id))[|PREFIX|..] == Base64Url(id);
    assert (PREFIX + Base64Url(id'))[|PREFIX|..] == Base64Url(id');
    Base64UrlInjective(id, id');
    Base64UrlInjective(name, name');
  }

  // Pairs that the schema refuses have no name here.
  function SourceNaming(): Secrets.Naming {
    (id, name) => if IsValidPair(id, name) then SecretName(id, name) else ""
  }

  function SchemaValid(): Secrets.Validity {
    (id, name) => IsValidPair(id, name)
  }

  /** The names of the source are sound beside secrets that do not carry its prefix. */
  lemma SourceNamingIsSound(other: Secrets.Store)
    requires forall key :: key in other ==> !(PREFIX <= key)
    ensures Secrets.SoundNaming(SourceNaming(), SchemaValid(), other)
  {
    forall i, n, i', n' | IsValidPair(i, n) && IsValidPair(i', n') && SecretName(i, n) == SecretName(i', n')
      ensures i == i' && n == n'
    {
      SecretNameInjective(i, n, i', n');
    }
    forall i, n | IsValidPair(i, n) ensures SecretName(i, n) !in other {
      assert PREFIX <= SecretName(i, n);
    }
  }

  lemma DashInside(x: string, y: string)
    requires Ascii(x) && Ascii(y) && |x| == 2 && |y| == 2
    ensures Ascii(x + ">" + y) && Base64Url(x + ">" + y) == Base64Url(x) + ['-'] + Base64Url(y)
  {
    BytesAround(x, y);
    SextetsAround(Bytes(x + ">" + y), Bytes(x), Bytes(y));
    SymbolsAround(Sextets(Bytes(x)), Sextets(Bytes(y)));
  }

  lemma BytesAround(x: string, y: string)
    requires |x| == 2
    ensures var bs := Bytes(x + ">" + y); bs[0] == Bytes(x)[0] && bs[1] == Bytes(x)[1] && bs[2] == 62 && bs[3..] == Bytes(y)
  {
  }

  lemma SextetsAround(bs: seq<nat>, x: seq<nat>, y: seq<nat>)
    requires IsBytes(x) && IsBytes(y) && |x| == 2 && x[0] < 128 && x[1] < 128
    requires |bs| >= 3 && bs[0] == x[0] && bs[1] == x[1] && bs[2] == 62 && bs[3..] == y && IsBytes(bs)
    ensures Sextets(bs) == Sextets(x) + [62] + Sextets(y)
  {
    var g, h := Group(x[0], x[1], 0), Group(x[0], x[1], 62);
    assert Sextets(x) == g[..3] && h == g[..3] + [62];
  }

  lemma SymbolsAround(x: seq<nat>, y: seq<nat>)
    requires IsSextets(x) && IsSextets(y)
    ensures IsSextets(x + [62] + y) && Symbols(x + [62] + y) == Symbols(x) + ['-'] + Symbols(y)
  {
    assert Symbol(62) == '-';
  }

  /** Outside the schema patterns pairs collide: ">" in third place encodes to "-". */
  lemma UnrestrictedNamesCollide(x: string, y: string, z: string)
    requires Ascii(x) && Ascii(y) && Ascii(z) && |x| == 2 && |y| == 2 && |z| == 2
    ensures Ascii(y + ">" + z) && Ascii(x + ">" + y)
    ensures SecretName(x, y + ">" + z) == SecretName(x + ">" + y, z)
  {
    DashInside(x, y);
    DashInside(y, z);
    var a, b, c := Base64Url(x), Base64Url(y), Base64Url(z);
    assert PREFIX + a + ['-'] + (b + ['-'] + c) == PREFIX + (a + ['-'] + b) + ['-'] + c;
  }
}
