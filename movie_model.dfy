/**
 * The catalog model of CrawData/src/models/Movie.ts: the document fields the
 * crawler relies on, the required-field validation, the `trim` option and
 * pre-save hook on `slug`, and the unique index on `slug`. The collection
 * is a map from slug to document.
 */
module MovieModel {
  import opened Wrappers
  import opened JsValues

  /**
   * A catalog document: its `_id` and the schema paths that are required or
   * that the crawler reads. An absent path is None.
   */
  datatype Movie = Movie(
    id: nat,
    name: Option<string>,
    slug: Option<string>,
    originName: Option<string>,
    content: Option<string>,
    movieType: Option<string>,
    status: Option<string>,
    thumbUrl: Option<string>,
    posterUrl: Option<string>,
    year: Option<int>)

  /** A required String path is satisfied only by a non-empty string. */
  predicate RequiredString(f: Option<string>)
  {
    f.Some? && f.value != ""
  }

  /** The string paths the schema marks `required`: name, slug, origin_name, type, status, thumb_url, poster_url. */
  function RequiredStrings(m: Movie): seq<Option<string>>
  {
    [m.name, m.slug, m.originName, m.movieType, m.status, m.thumbUrl, m.posterUrl]
  }

  /**
   * Schema validation: every required string path is set and non-empty (a
   * required string rejects ""), `year` is set, and `content` is optional.
   */
  function HasRequiredFields(m: Movie): (r: bool)
    ensures r <==> m.year.Some? && forall f :: f in RequiredStrings(m) ==> RequiredString(f)
    ensures r ==> m.slug.Some? && m.slug.value != ""
  {
    && RequiredString(m.name)
    && RequiredString(m.slug)
    && RequiredString(m.originName)
    && RequiredString(m.movieType)
    && RequiredString(m.status)
    && RequiredString(m.thumbUrl)
    && RequiredString(m.posterUrl)
    && m.year.Some?
  }

  /** A slug in normal form: no upper-case letter, no white space at either end. */
  predicate IsNormalSlug(s: string)
  {
    NoUpper(s) && Trimmed(s)
  }

  lemma TrimKeepsNoUpper(s: string, r: string)
    requires NoUpper(s) && TrimOf(s, r)
    ensures NoUpper(r)
  {
    var i, j :| 0 <= i <= j <= |s| && r == s[i..j] && AllSpace(s[..i]) && AllSpace(s[j..]);
    forall k | 0 <= k < |r| ensures !IsUpper(r[k]) {
      assert r[k] == s[i + k];
    }
  }

  /**
   * The hook's `slug.toLowerCase().trim()`: the lower-cased input with its
   * leading and trailing whitespace cut off, which is a normal slug no
   * longer than the input.
   */
  function NormalizeSlug(s: string): (r: string)
    ensures TrimOf(ToLowerCase(s), r)
    ensures IsNormalSlug(r)
    ensures |r| <= |s|
  {
    var lower := ToLowerCase(s);
    TrimKeepsNoUpper(lower, Trim(lower));
    Trim(lower)
  }

  /** Normalising changes a slug exactly when it is not already in normal form. */
  lemma {:induction false} NormalizeSlugFixpoints(s: string)
    ensures NormalizeSlug(s) == s <==> IsNormalSlug(s)
  {
    if IsNormalSlug(s) {
      assert ToLowerCase(s) == s;
      TrimTrimmed(s);
    }
  }

  /** Normalising twice is normalising once. */
  lemma NormalizeSlugIdempotent(s: string)
    ensures NormalizeSlug(NormalizeSlug(s)) == NormalizeSlug(s)
  {
    NormalizeSlugFixpoints(NormalizeSlug(s));
  }

  /** A document being saved: the `slug` path carries the schema option `trim`, applied on assignment. */
  class MovieDocument {
    var movie: Movie

    /** Every assigned slug has been trimmed by the schema's `trim` option. */
    ghost predicate Valid()
      reads this
    {
      movie.slug.Some? ==> Trimmed(movie.slug.value)
    }

    constructor(m: Movie)
      ensures Valid()
      ensures movie == m.(slug := if m.slug.Some? then Some(Trim(m.slug.value)) else None)
    {
      movie := m.(slug := if m.slug.Some? then Some(Trim(m.slug.value)) else None);
    }

    /** The pre-save hook: a truthy slug becomes its normal form; an empty or absent slug, and every other path, is left as it was. */
    method PreSave()
      modifies this
      ensures old(RequiredString(movie.slug)) ==>
                movie.slug.Some? && IsNormalSlug(movie.slug.value) &&
                movie.slug.value == NormalizeSlug(old(movie.slug.value))
      ensures !old(RequiredString(movie.slug)) ==> movie.slug == old(movie.slug)
      ensures movie == old(movie).(slug := movie.slug)
    {
      if RequiredString(movie.slug) {
        movie := movie.(slug := Some(NormalizeSlug(movie.slug.value)));
      }
    }
  }

  datatype SaveError = ValidationError | DuplicateKey

  /** The catalog collection: at most one document per slug, every stored slug non-empty and in normal form. */
  class MovieCollection {
    var docs: map<string, Movie>

    ghost predicate Valid()
      reads this
    {
      forall k :: k in docs ==> docs[k].slug == Some(k) && k != "" && IsNormalSlug(k)
    }

    constructor()
      ensures Valid() && docs == map[]
    {
      docs := map[];
    }

    /**
     * `save` of a new document: validation first (nothing is written and the
     * document is untouched when a required path is missing), then the
     * pre-save hook, then the unique index, which rejects a slug already in
     * the collection; otherwise exactly that document is added.
     */
    method Save(doc: MovieDocument) returns (r: Result<(), SaveError>)
      requires Valid() && doc.Valid()
      modifies this, doc
      ensures Valid()
      ensures !HasRequiredFields(old(doc.movie)) ==>
                r == Failure(ValidationError) && docs == old(docs) && doc.movie == old(doc.movie)
      ensures HasRequiredFields(old(doc.movie)) ==>
                var key := NormalizeSlug(old(doc.movie).slug.value);
                && doc.movie == old(doc.movie).(slug := Some(key))
                && (key in old(docs) ==> r == Failure(DuplicateKey) && docs == old(docs))
                && (key !in old(docs) ==> r == Success(()) && docs == old(docs)[key := doc.movie])
    {
      if !HasRequiredFields(doc.movie) {
        return Failure(ValidationError);
      }
      ghost var before := doc.movie.slug.value;
      doc.PreSave();
      var key := doc.movie.slug.value;
      NormalizeSlugFixpoints(before);
      if key in docs {
        return Failure(DuplicateKey);
      }
      docs := docs[key := doc.movie];
      r := Success(());
    }
  }
}
