/**
 * SlugTree and ReferenceTree of the common-go repository package: nested maps from a
 * slug's (saas, owner, name), or a reference's (type, name), to a datum. PutData creates
 * the missing levels and overwrites the datum; GetData answers nil (None) for a nil key or
 * any missing level.
 */
module Tree {
  import opened Wrappers
  import opened Identity

  type SlugMap<D> = map<string, map<string, map<string, D>>>

  type ReferenceMap<D> = map<string, map<string, D>>

  /** The datum of a slug, when all three levels are present. */
  function SlugGet<D>(t: SlugMap<D>, slug: Option<Slug>): (r: Option<D>)
    ensures r.Some? <==>
      slug.Some? && slug.value.saas in t && slug.value.owner in t[slug.value.saas] && slug.value.name in t[slug.value.saas][slug.value.owner]
    ensures r.Some? ==> r.value == t[slug.value.saas][slug.value.owner][slug.value.name]
  {
    match slug
    case None => None
    case Some(s) =>
      if s.saas !in t then None
      else if s.owner !in t[s.saas] then None
      else if s.name !in t[s.saas][s.owner] then None
      else Some(t[s.saas][s.owner][s.name])
  }

  /** The tree after PutData(slug, d): missing levels created, the leaf overwritten. */
  function SlugPut<D>(t: SlugMap<D>, s: Slug, d: D): SlugMap<D> {
    var owners := if s.saas in t then t[s.saas] else map[];
    var repos := if s.owner in owners then owners[s.owner] else map[];
    t[s.saas := owners[s.owner := repos[s.name := d]]]
  }

  /** PutDataMulti: PutData for each slug in order, nil slugs skipped. */
  function SlugPutAll<D>(t: SlugMap<D>, slugs: seq<Option<Slug>>, d: D): SlugMap<D>
    decreases |slugs|
  {
    if slugs == [] then t
    else SlugPutAll(if slugs[0].Some? then SlugPut(t, slugs[0].value, d) else t, slugs[1..], d)
  }

  lemma SlugGetAfterPut<D>(t: SlugMap<D>, s: Slug, d: D, other: Slug)
    ensures SlugGet(SlugPut(t, s, d), Some(s)) == Some(d)
    ensures other != s ==> SlugGet(SlugPut(t, s, d), Some(other)) == SlugGet(t, Some(other))
  {
    if other != s {
      if other.saas == s.saas && other.owner == s.owner {
        assert other.name != s.name;
      }
    }
  }

  lemma SlugPutNotEmpty<D>(t: SlugMap<D>, s: Slug, d: D)
    ensures |SlugPut(t, s, d)| > 0
  {
    assert s.saas in SlugPut(t, s, d);
  }

  /** After PutDataMulti, exactly the listed slugs carry the datum; every other slug keeps its own. */
  lemma {:induction false} SlugGetAfterPutAll<D>(t: SlugMap<D>, slugs: seq<Option<Slug>>, d: D, s: Slug)
    ensures SlugGet(SlugPutAll(t, slugs, d), Some(s)) == if Some(s) in slugs then Some(d) else SlugGet(t, Some(s))
    decreases |slugs|
  {
    if slugs != [] {
      var t1 := if slugs[0].Some? then SlugPut(t, slugs[0].value, d) else t;
      SlugGetAfterPutAll(t1, slugs[1..], d, s);
      if slugs[0].Some? {
        SlugGetAfterPut(t, slugs[0].value, d, s);
      }
      assert slugs == [slugs[0]] + slugs[1..];
      assert Some(s) in slugs <==> slugs[0] == Some(s) || Some(s) in slugs[1..];
    }
  }

  class SlugTree<D> {
    var tree: SlugMap<D>

    constructor ()
      ensures tree == map[]
    {
      tree := map[];
    }

    function GetData(slug: Option<Slug>): (r: Option<D>)
      reads this
      ensures r.Some? <==>
        slug.Some? && slug.value.saas in tree && slug.value.owner in tree[slug.value.saas] && slug.value.name in tree[slug.value.saas][slug.value.owner]
      ensures r.Some? ==> r.value == tree[slug.value.saas][slug.value.owner][slug.value.name]
    {
      SlugGet(tree, slug)
    }

    method PutData(slug: Option<Slug>, data: D)
      modifies this
      ensures slug.None? ==> tree == old(tree)
      ensures slug.Some? ==> tree == SlugPut(old(tree), slug.value, data)
    {
      if slug.None? {
        return;
      }
      var s := slug.value;
      var owners := if s.saas in tree then tree[s.saas] else map[];
      var repos := if s.owner in owners then owners[s.owner] else map[];
      repos := repos[s.name := data];
      owners := owners[s.owner := repos];
      tree := tree[s.saas := owners];
    }

    method PutDataMulti(slugs: seq<Option<Slug>>, data: D)
      modifies this
      ensures tree == SlugPutAll(old(tree), slugs, data)
    {
      var i := 0;
      while i < |slugs|
        invariant 0 <= i <= |slugs|
        invariant SlugPutAll(tree, slugs[i..], data) == SlugPutAll(old(tree), slugs, data)
      {
        assert slugs[i..][1..] == slugs[i + 1..];
        PutData(slugs[i], data);
        i := i + 1;
      }
    }

    function Empty(): (r: bool)
      reads this
      ensures r <==> tree == map[]
    {
      |tree| == 0
    }
  }

  /** The datum of a reference, when both levels are present. */
  function ReferenceGet<D>(t: ReferenceMap<D>, ref: Option<Reference>): (r: Option<D>)
    ensures r.Some? <==> ref.Some? && ref.value.refType in t && ref.value.name in t[ref.value.refType]
    ensures r.Some? ==> r.value == t[ref.value.refType][ref.value.name]
  {
    match ref
    case None => None
    case Some(x) =>
      if x.refType !in t then None
      else if x.name !in t[x.refType] then None
      else Some(t[x.refType][x.name])
  }

  function ReferencePut<D>(t: ReferenceMap<D>, x: Reference, d: D): ReferenceMap<D> {
    var refs := if x.refType in t then t[x.refType] else map[];
    t[x.refType := refs[x.name := d]]
  }

  function ReferencePutAll<D>(t: ReferenceMap<D>, refs: seq<Option<Reference>>, d: D): ReferenceMap<D>
    decreases |refs|
  {
    if refs == [] then t
    else ReferencePutAll(if refs[0].Some? then ReferencePut(t, refs[0].value, d) else t, refs[1..], d)
  }

  lemma ReferenceGetAfterPut<D>(t: ReferenceMap<D>, x: Reference, d: D, other: Reference)
    ensures ReferenceGet(ReferencePut(t, x, d), Some(x)) == Some(d)
    ensures other != x ==> ReferenceGet(ReferencePut(t, x, d), Some(other)) == ReferenceGet(t, Some(other))
  {
    if other != x && other.refType == x.refType {
      assert other.name != x.name;
    }
  }

  lemma ReferencePutNotEmpty<D>(t: ReferenceMap<D>, x: Reference, d: D)
    ensures |ReferencePut(t, x, d)| > 0
  {
    assert x.refType in ReferencePut(t, x, d);
  }

  lemma {:induction false} ReferenceGetAfterPutAll<D>(t: ReferenceMap<D>, refs: seq<Option<Reference>>, d: D, x: Reference)
    ensures ReferenceGet(ReferencePutAll(t, refs, d), Some(x)) == if Some(x) in refs then Some(d) else ReferenceGet(t, Some(x))
    decreases |refs|
  {
    if refs != [] {
      var t1 := if refs[0].Some? then ReferencePut(t, refs[0].value, d) else t;
      ReferenceGetAfterPutAll(t1, refs[1..], d, x);
      if refs[0].Some? {
        ReferenceGetAfterPut(t, refs[0].value, d, x);
      }
      assert refs == [refs[0]] + refs[1..];
      assert Some(x) in refs <==> refs[0] == Some(x) || Some(x) in refs[1..];
    }
  }

  class ReferenceTree<D> {
    var tree: ReferenceMap<D>

    constructor ()
      ensures tree == map[]
    {
      tree := map[];
    }

    function GetData(ref: Option<Reference>): (r: Option<D>)
      reads this
      ensures r.Some? <==> ref.Some? && ref.value.refType in tree && ref.value.name in tree[ref.value.refType]
      ensures r.Some? ==> r.value == tree[ref.value.refType][ref.value.name]
    {
      ReferenceGet(tree, ref)
    }

    method PutData(ref: Option<Reference>, data: D)
      modifies this
      ensures ref.None? ==> tree == old(tree)
      ensures ref.Some? ==> tree == ReferencePut(old(tree), ref.value, data)
    {
      if ref.None? {
        return;
      }
      var x := ref.value;
      var refs := if x.refType in tree then tree[x.refType] else map[];
      refs := refs[x.name := data];
      tree := tree[x.refType := refs];
    }

    method PutDataMulti(refs: seq<Option<Reference>>, data: D)
      modifies this
      ensures tree == ReferencePutAll(old(tree), refs, data)
    {
      var i := 0;
      while i < |refs|
        invariant 0 <= i <= |refs|
        invariant ReferencePutAll(tree, refs[i..], data) == ReferencePutAll(old(tree), refs, data)
      {
        assert refs[i..][1..] == refs[i + 1..];
        PutData(refs[i], data);
        i := i + 1;
      }
    }

    function Empty(): (r: bool)
      reads this
      ensures r <==> tree == map[]
    {
      |tree| == 0
    }
  }
}
