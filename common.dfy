/** Small value types shared by every edge function of the model. */
module Common {

  /** A JSON field or query result that may be absent (`undefined` or `null`). */
  datatype Option<T> = None | Some(value: T) {
    /** The `??` operator: the value when present, otherwise the fallback. */
    function GetOr(fallback: T): T {
      if Some? then value else fallback
    }
  }

  /** JavaScript truthiness of an optional string: present and not the empty string. */
  predicate Truthy(s: Option<string>) {
    s.Some? && s.value != ""
  }

  const DefaultLimit := 20
  const MaxTake := 50

  /**
   * The page size `Math.min(limit, 50)`, where `limit` defaults to 20 when the request
   * body leaves it out: the smaller of the two.
   */
  function Take(limit: Option<int>): (t: int)
    ensures t <= MaxTake && t <= limit.GetOr(DefaultLimit)
    ensures t == MaxTake || t == limit.GetOr(DefaultLimit)
  {
    var l := limit.GetOr(DefaultLimit);
    if l < MaxTake then l else MaxTake
  }
}
