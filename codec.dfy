/**
 * The byte form of the values the repository caches keep: a repository, a list of
 * repositories (which may be nil), and the two envelopes that carry the identity a cached
 * value was fetched for. It stands in for encoding/json: every value decodes back to
 * itself, and bytes that are not an encoding may fail to decode.
 *
 * Layout: a natural number is written in base 128, low group first, with the high bit set
 * on every byte but the last; a string is the length of its UTF-8 bytes, then the bytes;
 * a boolean is one byte 0 or 1; a list is its length, then its elements; a nil list is the
 * byte 0 and a non-nil one the byte 1 before the list. A whole item must be consumed.
 */
module Codec {
  import opened Wrappers
  import opened Utf8
  import opened Identity

  /** The cached value of a reference list, tagged with the slug it was listed for. */
  datatype ReferencesEnvelope = ReferencesEnvelope(slug: Slug, refs: seq<Reference>)

  /** The cached value of a commit ID, tagged with the slug and reference it was resolved for. */
  datatype CommitEnvelope = CommitEnvelope(slug: Slug, ref: Reference, id: string)

  type Parse<T> = Option<(T, Bytes)>

  function EncodeNat(n: nat): (r: Bytes)
    ensures |r| >= 1
    decreases n
  {
    if n < 128 then [n as byte] else [(128 + n % 128) as byte] + EncodeNat(n / 128)
  }

  function DecodeNat(b: Bytes): (r: Parse<nat>)
    ensures r.Some? ==> |r.value.1| < |b|
    decreases |b|
  {
    if |b| == 0 then None
    else if b[0] < 128 then Some((b[0] as nat, b[1..]))
    else
      match DecodeNat(b[1..])
      case None => None
      case Some((m, rest)) => Some((b[0] as int - 128 + 128 * m, rest))
  }

  lemma {:induction false} NatRoundTrip(n: nat, rest: Bytes)
    ensures DecodeNat(EncodeNat(n) + rest) == Some((n, rest))
    decreases n
  {
    var b := EncodeNat(n) + rest;
    if n < 128 {
      assert b == [n as byte] + rest;
      assert b[1..] == rest;
    } else {
      var q, lo := n / 128, n % 128;
      assert n == 128 * q + lo;
      assert b == [(128 + lo) as byte] + (EncodeNat(q) + rest);
      assert b[0] as int == 128 + lo;
      assert b[1..] == EncodeNat(q) + rest;
      NatRoundTrip(q, rest);
    }
  }

  function EncodeStr(s: string): Bytes {
    EncodeNat(|Encode(s)|) + Encode(s)
  }

  function DecodeStr(b: Bytes): (r: Parse<string>)
    ensures r.Some? ==> |r.value.1| < |b|
  {
    match DecodeNat(b)
    case None => None
    case Some((n, rest)) => if n <= |rest| then Some((Decode(rest[..n]), rest[n..])) else None
  }

  lemma StrRoundTrip(s: string, rest: Bytes)
    ensures DecodeStr(EncodeStr(s) + rest) == Some((s, rest))
  {
    var e := Encode(s);
    assert EncodeStr(s) + rest == EncodeNat(|e|) + (e + rest);
    NatRoundTrip(|e|, e + rest);
    assert (e + rest)[..|e|] == e;
    assert (e + rest)[|e|..] == rest;
    DecodeEncode(s);
  }

  function EncodeBool(x: bool): Bytes {
    if x then [1] else [0]
  }

  function DecodeBool(b: Bytes): (r: Parse<bool>)
    ensures r.Some? ==> |r.value.1| < |b|
  {
    if |b| > 0 && b[0] == 1 then Some((true, b[1..]))
    else if |b| > 0 && b[0] == 0 then Some((false, b[1..]))
    else None
  }

  lemma BoolRoundTrip(x: bool, rest: Bytes)
    ensures DecodeBool(EncodeBool(x) + rest) == Some((x, rest))
  {
    assert (EncodeBool(x) + rest)[1..] == rest;
  }

  function EncodeStr3(a: string, b: string, c: string): Bytes {
    EncodeStr(a) + EncodeStr(b) + EncodeStr(c)
  }

  function DecodeStr3(b: Bytes): (r: Parse<(string, string, string)>)
    ensures r.Some? ==> |r.value.1| < |b|
  {
    match DecodeStr(b)
    case None => None
    case Some((x, r1)) =>
      match DecodeStr(r1)
      case None => None
      case Some((y, r2)) =>
        match DecodeStr(r2)
        case None => None
        case Some((z, r3)) => Some(((x, y, z), r3))
  }

  lemma Str3RoundTrip(a: string, b: string, c: string, rest: Bytes)
    ensures DecodeStr3(EncodeStr3(a, b, c) + rest) == Some(((a, b, c), rest))
  {
    assert EncodeStr3(a, b, c) + rest == EncodeStr(a) + (EncodeStr(b) + (EncodeStr(c) + rest));
    StrRoundTrip(a, EncodeStr(b) + (EncodeStr(c) + rest));
    StrRoundTrip(b, EncodeStr(c) + rest);
    StrRoundTrip(c, rest);
  }

  function EncodeSlug(s: Slug): Bytes {
    EncodeStr3(s.saas, s.owner, s.name)
  }

  function DecodeSlug(b: Bytes): (r: Parse<Slug>)
    ensures r.Some? ==> |r.value.1| < |b|
  {
    match DecodeStr3(b)
    case None => None
    case Some((t, rest)) => Some((Slug(t.0, t.1, t.2), rest))
  }

  function EncodeRef(x: Reference): Bytes {
    EncodeStr(x.refType) + EncodeStr(x.name)
  }

  function DecodeRef(b: Bytes): (r: Parse<Reference>)
    ensures r.Some? ==> |r.value.1| < |b|
  {
    match DecodeStr(b)
    case None => None
    case Some((t, r1)) =>
      match DecodeStr(r1)
      case None => None
      case Some((n, r2)) => Some((Reference(t, n), r2))
  }

  lemma RefRoundTrip(x: Reference, rest: Bytes)
    ensures DecodeRef(EncodeRef(x) + rest) == Some((x, rest))
  {
    assert EncodeRef(x) + rest == EncodeStr(x.refType) + (EncodeStr(x.name) + rest);
    StrRoundTrip(x.refType, EncodeStr(x.name) + rest);
    StrRoundTrip(x.name, rest);
  }

  function EncodeRepo(x: Repository): Bytes {
    EncodeSlug(x.slug) + EncodeStr3(x.id.saas, x.id.ownerID, x.id.id) + EncodeBool(x.permissions.admin)
  }

  function DecodeRepo(b: Bytes): (r: Parse<Repository>)
    ensures r.Some? ==> |r.value.1| < |b|
  {
    match DecodeSlug(b)
    case None => None
    case Some((s, r1)) =>
      match DecodeStr3(r1)
      case None => None
      case Some((i, r2)) =>
        match DecodeBool(r2)
        case None => None
        case Some((admin, r3)) => Some((Repository(s, ID(i.0, i.1, i.2), Permissions(admin)), r3))
  }

  lemma Assoc(a: Bytes, b: Bytes, c: Bytes)
    ensures a + b + c == a + (b + c)
  {
  }

  lemma RepoRoundTrip(x: Repository, rest: Bytes)
    ensures DecodeRepo(EncodeRepo(x) + rest) == Some((x, rest))
  {
    var a := EncodeSlug(x.slug);
    var i := EncodeStr3(x.id.saas, x.id.ownerID, x.id.id);
    var p := EncodeBool(x.permissions.admin);
    var t2 := p + rest;
    var t1 := i + t2;
    Assoc(a, i, p);
    Assoc(a + i, p, rest);
    Assoc(a, i, t2);
    assert EncodeRepo(x) + rest == a + t1;
    Str3RoundTrip(x.slug.saas, x.slug.owner, x.slug.name, t1);
    assert DecodeSlug(a + t1) == Some((x.slug, t1));
    Str3RoundTrip(x.id.saas, x.id.ownerID, x.id.id, t2);
    BoolRoundTrip(x.permissions.admin, rest);
  }

  function EncodeRefItems(xs: seq<Reference>): Bytes
    decreases |xs|
  {
    if xs == [] then [] else EncodeRef(xs[0]) + EncodeRefItems(xs[1..])
  }

  function DecodeRefItems(n: nat, b: Bytes): (r: Parse<seq<Reference>>)
    ensures r.Some? ==> |r.value.1| <= |b| && |r.value.0| == n
    decreases n
  {
    if n == 0 then Some(([], b))
    else
      match DecodeRef(b)
      case None => None
      case Some((x, r1)) =>
        match DecodeRefItems(n - 1, r1)
        case None => None
        case Some((xs, r2)) => Some(([x] + xs, r2))
  }

  lemma {:induction false} RefItemsRoundTrip(xs: seq<Reference>, rest: Bytes)
    ensures DecodeRefItems(|xs|, EncodeRefItems(xs) + rest) == Some((xs, rest))
    decreases |xs|
  {
    if xs == [] {
      assert EncodeRefItems(xs) + rest == rest;
    } else {
      var tail := EncodeRefItems(xs[1..]) + rest;
      assert EncodeRefItems(xs) + rest == EncodeRef(xs[0]) + tail;
      RefRoundTrip(xs[0], tail);
      RefItemsRoundTrip(xs[1..], rest);
      assert DecodeRefItems(|xs| - 1, tail) == Some((xs[1..], rest));
      assert [xs[0]] + xs[1..] == xs;
    }
  }

  function EncodeRepoItems(xs: seq<Repository>): Bytes
    decreases |xs|
  {
    if xs == [] then [] else EncodeRepo(xs[0]) + EncodeRepoItems(xs[1..])
  }

  function DecodeRepoItems(n: nat, b: Bytes): (r: Parse<seq<Repository>>)
    ensures r.Some? ==> |r.value.1| <= |b| && |r.value.0| == n
    decreases n
  {
    if n == 0 then Some(([], b))
    else
      match DecodeRepo(b)
      case None => None
      case Some((x, r1)) =>
        match DecodeRepoItems(n - 1, r1)
        case None => None
        case Some((xs, r2)) => Some(([x] + xs, r2))
  }

  lemma DecodeRepoItemsCons(n: nat, b: Bytes, x: Repository, r1: Bytes, xs: seq<Repository>, r2: Bytes)
    requires n > 0 && DecodeRepo(b) == Some((x, r1)) && DecodeRepoItems(n - 1, r1) == Some((xs, r2))
    ensures DecodeRepoItems(n, b) == Some(([x] + xs, r2))
  {
  }

  lemma RepoItemsStep(x: Repository, t: seq<Repository>, rest: Bytes)
    requires DecodeRepoItems(|t|, EncodeRepoItems(t) + rest) == Some((t, rest))
    ensures DecodeRepoItems(|t| + 1, EncodeRepo(x) + (EncodeRepoItems(t) + rest)) == Some(([x] + t, rest))
  {
    var tail := EncodeRepoItems(t) + rest;
    RepoRoundTrip(x, tail);
    DecodeRepoItemsCons(|t| + 1, EncodeRepo(x) + tail, x, tail, t, rest);
  }

  lemma {:induction false} RepoItemsRoundTrip(xs: seq<Repository>, rest: Bytes)
    ensures DecodeRepoItems(|xs|, EncodeRepoItems(xs) + rest) == Some((xs, rest))
    decreases |xs|
  {
    if xs == [] {
      assert EncodeRepoItems(xs) + rest == rest;
    } else {
      var t := xs[1..];
      RepoItemsRoundTrip(t, rest);
      RepoItemsStep(xs[0], t, rest);
      Assoc(EncodeRepo(xs[0]), EncodeRepoItems(t), rest);
      assert EncodeRepoItems(xs) == EncodeRepo(xs[0]) + EncodeRepoItems(t);
      assert [xs[0]] + t == xs;
    }
  }


  // Whole cache items.

  /** The item of a single repository. */
  function EncodeRepository(x: Repository): Bytes {
    EncodeRepo(x)
  }

  /** Unmarshalling into a repository: None when the bytes are not exactly one encoding. */
  function DecodeRepository(b: Bytes): Option<Repository> {
    match DecodeRepo(b)
    case Some((x, rest)) => if rest == [] then Some(x) else None
    case None => None
  }

  /** The item of a repository list; a nil list has its own encoding, like JSON's null. */
  function EncodeRepositories(xs: Option<seq<Repository>>): Bytes {
    match xs
    case None => [0]
    case Some(l) => [1] + EncodeNat(|l|) + EncodeRepoItems(l)
  }

  /** Unmarshalling into a repository list: the outer None is an error, the inner None a nil list. */
  function DecodeRepositories(b: Bytes): Option<Option<seq<Repository>>> {
    if b == [0] then Some(None)
    else if |b| > 0 && b[0] == 1 then
      match DecodeNat(b[1..])
      case None => None
      case Some((n, r1)) =>
        match DecodeRepoItems(n, r1)
        case None => None
        case Some((xs, r2)) => if r2 == [] then Some(Some(xs)) else None
    else None
  }

  function EncodeReferences(e: ReferencesEnvelope): Bytes {
    EncodeSlug(e.slug) + EncodeNat(|e.refs|) + EncodeRefItems(e.refs)
  }

  function DecodeReferences(b: Bytes): Option<ReferencesEnvelope> {
    match DecodeSlug(b)
    case None => None
    case Some((s, r1)) =>
      match DecodeNat(r1)
      case None => None
      case Some((n, r2)) =>
        match DecodeRefItems(n, r2)
        case None => None
        case Some((xs, r3)) => if r3 == [] then Some(ReferencesEnvelope(s, xs)) else None
  }

  function EncodeCommit(e: CommitEnvelope): Bytes {
    EncodeSlug(e.slug) + EncodeRef(e.ref) + EncodeStr(e.id)
  }

  function DecodeCommit(b: Bytes): Option<CommitEnvelope> {
    match DecodeSlug(b)
    case None => None
    case Some((s, r1)) =>
      match DecodeRef(r1)
      case None => None
      case Some((x, r2)) =>
        match DecodeStr(r2)
        case None => None
        case Some((id, r3)) => if r3 == [] then Some(CommitEnvelope(s, x, id)) else None
  }

  lemma RepositoryRoundTrip(x: Repository)
    ensures DecodeRepository(EncodeRepository(x)) == Some(x)
  {
    RepoRoundTrip(x, []);
    assert EncodeRepo(x) + [] == EncodeRepo(x);
  }

  lemma RepositoriesRoundTrip(xs: Option<seq<Repository>>)
    ensures DecodeRepositories(EncodeRepositories(xs)) == Some(xs)
  {
    if xs.Some? {
      var l := xs.value;
      var b := EncodeRepositories(xs);
      var n := EncodeNat(|l|);
      var items := EncodeRepoItems(l);
      Assoc([1], n, items);
      assert b == [1] + (n + items);
      assert b[1..] == n + items;
      assert items + [] == items;
      NatRoundTrip(|l|, items);
      RepoItemsRoundTrip(l, []);
      assert |b| > 1;
    }
  }

  lemma ReferencesRoundTrip(e: ReferencesEnvelope)
    ensures DecodeReferences(EncodeReferences(e)) == Some(e)
  {
    var s := EncodeSlug(e.slug);
    var n := EncodeNat(|e.refs|);
    var items := EncodeRefItems(e.refs);
    assert EncodeReferences(e) == s + (n + (items + []));
    Str3RoundTrip(e.slug.saas, e.slug.owner, e.slug.name, n + (items + []));
    NatRoundTrip(|e.refs|, items + []);
    RefItemsRoundTrip(e.refs, []);
  }

  lemma CommitRoundTrip(e: CommitEnvelope)
    ensures DecodeCommit(EncodeCommit(e)) == Some(e)
  {
    var s := EncodeSlug(e.slug);
    var x := EncodeRef(e.ref);
    var i := EncodeStr(e.id);
    assert EncodeCommit(e) == s + (x + (i + []));
    Str3RoundTrip(e.slug.saas, e.slug.owner, e.slug.name, x + (i + []));
    RefRoundTrip(e.ref, i + []);
    StrRoundTrip(e.id, []);
  }
}
