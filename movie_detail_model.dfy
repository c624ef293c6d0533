/**
 * The detail collection of CrawData/src/models/MovieDetail.ts, reduced to
 * what the crawler depends on: a record per title holding the upstream
 * `movie` and `episodes` payloads, and the unique index on `movie.slug`.
 * The collection is a map from that slug to the record.
 */
module MovieDetailModel {
  import opened Wrappers
  import opened JsValues

  /** A stored record; the schema has no `movie_id` path, so strict mode drops the id that `create` is given. */
  datatype DetailRecord = DetailRecord(movie: JsValue, episodes: JsValue)

  /** The record's index key `movie.slug`: a required String path, so only a non-empty string is a key. */
  function KeyOf(rec: DetailRecord): Option<string>
  {
    var s := Get(rec.movie, "slug");
    if s.Str? && s.s != "" then Some(s.s) else None
  }

  /** Every record is stored under its own index key, so no two records share a `movie.slug`. */
  ghost predicate Indexed(records: map<string, DetailRecord>)
  {
    forall k :: k in records ==> KeyOf(records[k]) == Some(k)
  }

  datatype InsertError = ValidationError | DuplicateKey

  /**
   * `create` of one record: rejected when it has no slug, rejected by the
   * unique index when its slug is already stored; otherwise the collection
   * gains exactly that record and every earlier record is kept as it was.
   */
  function InsertInto(records: map<string, DetailRecord>, rec: DetailRecord): (r: Result<map<string, DetailRecord>, InsertError>)
    ensures KeyOf(rec).None? ==> r == Failure(ValidationError)
    ensures KeyOf(rec).Some? && KeyOf(rec).value in records ==> r == Failure(DuplicateKey)
    ensures r.Success? <==> KeyOf(rec).Some? && KeyOf(rec).value !in records
    ensures r.Success? ==>
              && KeyOf(rec).Some? && KeyOf(rec).value !in records
              && r.value.Keys == records.Keys + {KeyOf(rec).value}
              && r.value[KeyOf(rec).value] == rec
              && (forall k :: k in records ==> r.value[k] == records[k])
    ensures r.Success? && Indexed(records) ==> Indexed(r.value)
  {
    match KeyOf(rec)
    case None => Failure(ValidationError)
    case Some(key) => if key in records then Failure(DuplicateKey) else Success(records[key := rec])
  }

  class DetailCollection {
    var records: map<string, DetailRecord>

    ghost predicate Valid()
      reads this
    {
      Indexed(records)
    }

    constructor()
      ensures Valid() && records == map[]
    {
      records := map[];
    }

    /** `findOne({'movie.slug': slug})` as an existence test. */
    function Exists(slug: string): (b: bool)
      reads this
      requires Valid()
      ensures b <==> exists k :: k in records && KeyOf(records[k]) == Some(slug)
    {
      assert slug in records ==> KeyOf(records[slug]) == Some(slug);
      slug in records
    }

    /** `MovieDetailModel.create(rec)`. */
    method Create(rec: DetailRecord) returns (r: Result<(), InsertError>)
      requires Valid()
      modifies this
      ensures Valid()
      ensures InsertInto(old(records), rec).Success? ==> r == Success(()) && records == InsertInto(old(records), rec).value
      ensures InsertInto(old(records), rec).Failure? ==> r == Failure(InsertInto(old(records), rec).error) && records == old(records)
    {
      var ins := InsertInto(records, rec);
      if ins.Failure? {
        return Failure(ins.error);
      }
      records := ins.value;
      r := Success(());
    }
  }
}
