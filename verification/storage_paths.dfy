/**
 Object keys of document versions and assets (backend/src/utils/storage_paths.rs):
 one key belongs to one object only, whatever text the asset type is.
*/
module StoragePaths {
  /** The hyphenated text of a UUID: 36 characters, none of them a slash. */
  type Uuid = s: string | |s| == 36 && '/' !in s witness seq(36, _ => '0')

  function Digit(d: nat): char
    requires d < 10
  {
    "0123456789"[d]
  }

  function Digits(n: nat): (s: string)
    ensures |s| > 0 && forall c :: c in s ==> '0' <= c <= '9'
  {
    if n < 10 then [Digit(n)] else Digits(n / 10) + [Digit(n % 10)]
  }

  /** The text of a version number, which is a signed integer. */
  function NumberText(n: int): (s: string)
    ensures '/' !in s
  {
    if n < 0 then "-" + Digits(-n) else Digits(n)
  }

  function DocumentPrefix(document: Uuid): string {
    "documents/" + document
  }

  function VersionPrefix(document: Uuid, number: int): string {
    DocumentPrefix(document) + "/v" + NumberText(number)
  }

  function VersionObjectKey(document: Uuid, number: int, version: Uuid): string {
    VersionPrefix(document, number) + "/" + version
  }

  function AssetPrefix(document: Uuid, number: int): string {
    VersionPrefix(document, number) + "/assets"
  }

  function AssetKey(document: Uuid, number: int, kind: string, asset: Uuid): string {
    AssetPrefix(document, number) + "/" + kind + "/" + asset
  }

  /** What an object is stored for. */
  datatype Object =
    | VersionObject(document: Uuid, number: int, version: Uuid)
    | AssetObject(document: Uuid, number: int, kind: string, asset: Uuid)

  function KeyOf(o: Object): string {
    match o
    case VersionObject(document, number, version) => VersionObjectKey(document, number, version)
    case AssetObject(document, number, kind, asset) => AssetKey(document, number, kind, asset)
  }

  // ---------- Reading a key back ----------

  function Value(s: string): int {
    if s == "" then 0 else Value(s[..|s| - 1]) * 10 + (s[|s| - 1] as int - '0' as int)
  }

  lemma {:induction false} DigitsValue(n: nat)
    ensures Value(Digits(n)) == n
  {
    if n < 10 {
      assert Value(Digits(n)[..0]) == 0;
    } else {
      DigitsValue(n / 10);
      assert Digits(n)[..|Digits(n)| - 1] == Digits(n / 10);
    }
  }

  lemma NumberTextInjective(m: int, n: int)
    requires NumberText(m) == NumberText(n)
    ensures m == n
  {
    assert if m < 0 then NumberText(m)[0] == '-' else NumberText(m)[0] in Digits(m);
    assert if n < 0 then NumberText(n)[0] == '-' else NumberText(n)[0] in Digits(n);
    if m < 0 {
      SamePrefix("-", Digits(-m), Digits(-n));
    }
    DigitsValue(if m < 0 then -m else m);
    DigitsValue(if n < 0 then -n else n);
  }

  lemma SlashTooEarly(a: string, x: string, b: string, y: string)
    requires '/' !in b && |a| < |b|
    ensures a + "/" + x != b + "/" + y
  {
    assert (a + "/" + x)[|a|] == '/';
    assert (b + "/" + y)[|a|] == b[|a|];
  }

  /** A text splits at its first slash in one way only. */
  lemma FirstSlash(a: string, x: string, b: string, y: string)
    requires '/' !in a && '/' !in b && a + "/" + x == b + "/" + y
    ensures a == b && x == y
  {
    if |a| < |b| {
      SlashTooEarly(a, x, b, y);
    } else if |b| < |a| {
      SlashTooEarly(b, y, a, x);
    } else {
      var s := a + "/" + x;
      assert a == s[..|a|] == b && x == s[|a| + 1..] == y;
    }
  }

  /** What follows the slash after the version number. */
  function Rest(o: Object): string {
    match o
    case VersionObject(_, _, version) => version
    case AssetObject(_, _, kind, asset) => "assets/" + kind + "/" + asset
  }

  lemma Regroup(p: string, d: string, n: string, r: string)
    ensures p + d + "/v" + n + "/" + r == p + (d + "/" + ("v" + n + "/" + r))
  {
    assert "/v" == "/" + "v";
  }

  lemma KeyShape(o: Object)
    ensures KeyOf(o) == "documents/" + (o.document + "/" + ("v" + NumberText(o.number) + "/" + Rest(o)))
  {
    var start := "documents/" + o.document + "/v" + NumberText(o.number);
    Regroup("documents/", o.document, NumberText(o.number), Rest(o));
    if o.AssetObject? {
      assert "/assets" + "/" == "/" + "assets/";
      assert start + "/assets" + "/" + o.kind + "/" + o.asset == start + "/" + ("assets/" + o.kind + "/" + o.asset);
    }
  }

  lemma SamePrefix(p: string, x: string, y: string)
    requires p + x == p + y
    ensures x == y
  {
    assert x == (p + x)[|p|..] && y == (p + y)[|p|..];
  }

  lemma SamePieces(p: string, d: string, m: string, x: string, e: string, n: string, y: string)
    requires '/' !in d && '/' !in m && '/' !in e && '/' !in n
    requires p + (d + "/" + ("v" + m + "/" + x)) == p + (e + "/" + ("v" + n + "/" + y))
    ensures d == e && m == n && x == y
  {
    SamePrefix(p, d + "/" + ("v" + m + "/" + x), e + "/" + ("v" + n + "/" + y));
    FirstSlash(d, "v" + m + "/" + x, e, "v" + n + "/" + y);
    assert "v" + m + "/" + x == "v" + (m + "/" + x) && "v" + n + "/" + y == "v" + (n + "/" + y);
    SamePrefix("v", m + "/" + x, n + "/" + y);
    FirstSlash(m, x, n, y);
  }

  lemma SameAsset(kind: string, asset: Uuid, kind': string, asset': Uuid)
    requires "assets/" + kind + "/" + asset == "assets/" + kind' + "/" + asset'
    ensures kind == kind' && asset == asset'
  {
    var s := kind + "/" + asset;
    var s' := kind' + "/" + asset';
    assert "assets/" + kind + "/" + asset == "assets/" + s && "assets/" + kind' + "/" + asset' == "assets/" + s';
    SamePrefix("assets/", s, s');
    assert asset == s[|s| - 36..] == s'[|s'| - 36..] == asset';
    assert kind == s[..|s| - 37] == s'[..|s'| - 37] == kind';
  }

  /** Keys are injective: the same key means the same kind, document, number, asset type and id. */
  lemma KeyInjective(o: Object, p: Object)
    requires KeyOf(o) == KeyOf(p)
    ensures o == p
  {
    KeyShape(o);
    KeyShape(p);
    SamePieces("documents/", o.document, NumberText(o.number), Rest(o), p.document, NumberText(p.number), Rest(p));
    NumberTextInjective(o.number, p.number);
    assert o.AssetObject? ==> Rest(o)[6] == '/';
    assert p.AssetObject? ==> Rest(p)[6] == '/';
    if o.AssetObject? {
      SameAsset(o.kind, o.asset, p.kind, p.asset);
    }
  }
}
