/**
  The record store: one JSON file per film under `docs/`, sharded into
  sub-directories named by the first two hex digits of the MD5 of the slug.
  The filesystem is a map from path to file content; the hash is a parameter.
*/
module RecordStore {
  import opened FilmRecords

  predicate IsHexDigit(c: char) { '0' <= c <= '9' || 'a' <= c <= 'f' }

  /** What `hashlib.md5(...).hexdigest()` returns: 32 lower-case hex digits. */
  type HexDigest = s: string | |s| == 32 && forall i | 0 <= i < |s| :: IsHexDigit(s[i])
    witness "00000000000000000000000000000000"

  /** A path split the way `pathlib` sees it: directory, stem and suffix. */
  datatype FilePath = FilePath(dir: string, stem: string, suffix: string)

  /** The path as text. */
  function Render(p: FilePath): string
  {
    p.dir + "/" + p.stem + p.suffix
  }

  /** `get_cache_path(slug)`: `docs/<first two hex digits of H(slug)>/<slug>.json`. */
  function CachePath(hash: string -> HexDigest, slug: string): FilePath
  {
    FilePath("docs/" + hash(slug)[..2], slug, ".json")
  }

  /** `cache_path.with_suffix(".tmp")`. */
  function TempPath(p: FilePath): FilePath
  {
    p.(suffix := ".tmp")
  }

  /** A record file: a document `json.load` accepts, or one rejected with a
      JSON syntax error or an I/O error. */
  datatype Stored<A> = Json(rec: Record<A>) | Corrupt

  type Docs<A> = map<FilePath, Stored<A>>

  /** `load_film_data(cache_path, slug)`: the stored record, or a fresh one
      when the file is missing or does not parse. */
  function LoadRecord<A>(docs: Docs<A>, path: FilePath, slug: string): (r: Record<A>)
    ensures path in docs && docs[path].Json? ==> r == docs[path].rec
    ensures (path !in docs || docs[path].Corrupt?) ==> r == Fresh(slug)
  {
    if path in docs && docs[path].Json? then docs[path].rec else Fresh(slug)
  }

  /** `save_film_data(cache_path, film_data)`: write the sibling temporary
      file, then rename it onto the target. */
  function SavedDocs<A>(docs: Docs<A>, path: FilePath, rec: Record<A>): Docs<A>
  {
    var tmp := TempPath(path);
    var written := docs[tmp := Json(rec)];
    (written - {tmp})[path := written[tmp]]
  }

  /** The rendered shard path is `docs/`, two hex digits, `/`, the slug, `.json`. */
  lemma CachePathShape(hash: string -> HexDigest, slug: string)
    ensures var p := Render(CachePath(hash, slug));
      && |p| == 13 + |slug|
      && p[..5] == "docs/"
      && IsHexDigit(p[5]) && IsHexDigit(p[6])
      && p[5..7] == hash(slug)[..2]
      && p[7] == '/'
      && p[8..8 + |slug|] == slug
      && p[8 + |slug|..] == ".json"
  {
    var h := hash(slug);
    assert IsHexDigit(h[0]) && IsHexDigit(h[1]);
  }

  /** Distinct slugs never share a record file. */
  lemma CachePathInjective(hash: string -> HexDigest, a: string, b: string)
    requires Render(CachePath(hash, a)) == Render(CachePath(hash, b))
    ensures a == b
  {
    CachePathShape(hash, a);
    CachePathShape(hash, b);
    var p := Render(CachePath(hash, a));
    assert |a| == |b|;
    assert a == p[8..8 + |a|] == b;
  }

  /** The temporary file sits next to the target, ends in `.tmp`, and is not
      the target itself. */
  lemma TempPathSibling(hash: string -> HexDigest, slug: string)
    ensures var p := CachePath(hash, slug);
      var t := TempPath(p);
      t.dir == p.dir && t.stem == p.stem && Render(t)[|Render(t)| - 4..] == ".tmp" && t != p
  {
  }

  /** After a save the target holds exactly the record, the temporary file is
      gone, and every other file is untouched. */
  lemma SaveThenLoad<A>(docs: Docs<A>, path: FilePath, rec: Record<A>, slug: string)
    requires path.suffix != ".tmp"
    ensures var d := SavedDocs(docs, path, rec);
      && LoadRecord(d, path, slug) == rec
      && TempPath(path) !in d
      && (forall q | q != path && q != TempPath(path) :: (q in d <==> q in docs) && (q in d ==> d[q] == docs[q]))
  {
  }
}
