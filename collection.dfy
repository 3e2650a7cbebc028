/**
  * The batch envelope: `results` (key to entity) and `errors` (key to an HTTP
  * error code), both changed in place. Java's maps are modelled as map values,
  * so a map handed to the constructor or a setter is copied, not shared.
  */
module Collections {
  import opened Wrappers

  class Collection<K(==), T> {
    var results: map<K, T>
    var errors: map<K, int>

    /** `new Collection()`: both maps empty. */
    constructor ()
      ensures results == map[] && errors == map[]
    {
      results, errors := map[], map[];
    }

    /** `new Collection(results, errors)`: a `null` map is replaced by an empty one, any other is kept. */
    constructor FromMaps(results: Option<map<K, T>>, errors: Option<map<K, int>>)
      ensures this.results == (if results.Some? then results.value else map[])
      ensures this.errors == (if errors.Some? then errors.value else map[])
    {
      this.results := if results.Some? then results.value else map[];
      this.errors := if errors.Some? then errors.value else map[];
    }

    /** `setResults`: replaces the whole results map; `errors` is untouched. */
    method SetResults(results: map<K, T>)
      modifies this`results
      ensures this.results == results
    {
      this.results := results;
    }

    /** `setErrors`: replaces the whole errors map; `results` is untouched. */
    method SetErrors(errors: map<K, int>)
      modifies this`errors
      ensures this.errors == errors
    {
      this.errors := errors;
    }

    /** `addResult(key, entity)`: `results[key] := entity`, overwriting; `errors` is untouched. */
    method AddResult(key: K, entity: T)
      modifies this`results
      ensures results == old(results)[key := entity]
    {
      results := results[key := entity];
    }

    /** `addError(key, code)`: `errors[key] := code`, overwriting; `results` is untouched. */
    method AddError(key: K, code: int)
      modifies this`errors
      ensures errors == old(errors)[key := code]
    {
      errors := errors[key := code];
    }
  }
}
