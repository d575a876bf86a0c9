/**
 * A mock HTTP request condition that matches when the request body contains at
 * least the expected JSON, and commits the captured bindings only on a match.
 */
module PartialJsonMatch {
  import opened Wrappers
  import opened Data
  import opened Binding

  /** True when a comparison found no mismatch. */
  predicate NoErrors(result: ComparisonResult) {
    |result.errors| == 0
  }

  class PartialJsonMatchCondition {
    const expectedRawJson: string
    const expectedParsedJson: Json
    const context: DynamicBindingContext

    constructor (expectedRawJson: string, expectedParsedJson: Json, context: DynamicBindingContext)
      ensures this.expectedRawJson == expectedRawJson
      ensures this.expectedParsedJson == expectedParsedJson
      ensures this.context == context
    {
      this.expectedRawJson := expectedRawJson;
      this.expectedParsedJson := expectedParsedJson;
      this.context := context;
    }

    /**
     * Compares leniently; on success stores every captured binding and answers
     * true, on failure answers false and leaves the context as it was. A captured
     * null value makes the store throw: the bindings before it stay stored and the
     * call ends with that error instead of an answer.
     */
    method Matches(request: HttpRequest, compareAndBind: Comparator) returns (r: Result<bool, BindingError>)
      requires context.Valid()
      modifies context
      ensures context.Valid()
      ensures var result := compareAndBind(expectedParsedJson, request.body, false);
              var stored := StoreAll(old(context.bindings), result.boundDynamicValues);
              if !NoErrors(result) then
                r == Success(false) && context.bindings == old(context.bindings)
              else
                context.bindings == stored.0
                && (stored.1 == Pass ==> r == Success(true))
                && (stored.1.Fail? ==> r == Failure(stored.1.error))
    {
      var result := compareAndBind(expectedParsedJson, request.body, false);
      if |result.errors| == 0 {
        var stored := context.StoreBindings(result.boundDynamicValues);
        if stored.Fail? {
          return Failure(stored.error);
        }
        r := Success(true);
      } else {
        r := Success(false);
      }
    }

    /** The condition prints as the raw JSON it was configured with. */
    function ToString(): (s: string)
      ensures s == expectedRawJson
    {
      expectedRawJson
    }
  }
}
