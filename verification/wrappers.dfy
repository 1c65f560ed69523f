/** Optional values: a request field or a nullable column is either absent or holds a value. */
module Wrappers {

  datatype Option<+T> = None | Some(value: T) {

    /** This value if present, otherwise `other` (the SQL `COALESCE(this, other)`). */
    function Or(other: Option<T>): (r: Option<T>)
      ensures r.Some? <==> Some? || other.Some?
      ensures Some? ==> r == this
      ensures None? ==> r == other
    {
      if Some? then this else other
    }
  }

  /** COALESCE is idempotent: coalescing with the same value again changes nothing. This is
      why repeating a partial update leaves the row as one update left it. */
  lemma CoalesceAgain<T>(a: Option<T>, b: Option<T>)
    ensures a.Or(a.Or(b)) == a.Or(b)
  {
  }

  /** COALESCE is associative, so a chain of partial updates collapses into one whose body
      takes each field from the most recent update that supplies it. */
  lemma CoalesceAssociative<T>(a: Option<T>, b: Option<T>, c: Option<T>)
    ensures a.Or(b.Or(c)) == a.Or(b).Or(c)
  {
  }
}
