/**
 * The mock HTTP server's expectation bookkeeping: a registry from request
 * pattern to its ordered response providers, the expectation currently being
 * configured, and the condition accumulated for its next response.
 */
module MockServer {
  import opened Wrappers
  import opened Data
  import opened Binding

  /**
   * A request condition. Its kinds are opaque here except for the always-true
   * condition and the conjunction built by `and`; `Leaf(id)` stands for any
   * other condition object.
   */
  datatype Condition = MatchAll | And(left: Condition, right: Condition) | Leaf(id: nat)

  datatype HttpResponse = HttpResponse(statusCode: int, body: string)

  /** A response provider: a condition with its response, or a provider of another kind. */
  datatype ResponseProvider =
    | Conditional(condition: Condition, response: HttpResponse)
    | Other(id: nat)

  datatype MockError =
    /** A condition or a response was configured with no request targeted. */
    | NoActiveExpectation
    /** No provider answered an incoming request; carries the request and every provider. */
    | NoMatchingProvider(request: HttpRequest, providers: seq<ResponseProvider>)
    /** No recorded request satisfied a verification; carries each candidate with its errors. */
    | RequestNotReceived(httpMethod: string, path: string, expectedRawJson: string,
                         candidates: seq<(Json, seq<string>)>)
    /** Requests were recorded where none were expected. */
    | UnexpectedCalls(httpMethod: string, path: string, requests: seq<HttpRequest>)
    /** Storing the bindings captured from the accepted request body failed. */
    | BindingFailed(error: BindingError)

  /** The ids of the opaque conditions a condition is built from. */
  function Leaves(c: Condition): set<nat> {
    match c
    case MatchAll => {}
    case And(l, r) => Leaves(l) + Leaves(r)
    case Leaf(id) => {id}
  }

  /**
   * Reference meaning of a condition; `leafHolds` decides the opaque kinds. A
   * condition built from the always-true one and conjunctions holds exactly when
   * every opaque condition in it holds.
   */
  function Holds(c: Condition, request: HttpRequest, leafHolds: (nat, HttpRequest) -> bool): (h: bool)
    ensures h <==> forall id :: id in Leaves(c) ==> leafHolds(id, request)
  {
    match c
    case MatchAll => true
    case And(l, r) => Holds(l, request, leafHolds) && Holds(r, request, leafHolds)
    case Leaf(id) => leafHolds(id, request)
  }

  // ---------------------------------------------------------------------------
  // Abstract state and its transitions

  /** What one registered expectation holds: its providers and its pending condition. */
  datatype Expectation = Expectation(providers: seq<ResponseProvider>, pending: Option<Condition>)

  datatype ServerState = ServerState(
    registry: map<HttpRequest, Expectation>,
    active: Option<HttpRequest>,
    received: seq<HttpRequest>)

  /** The active target, when there is one, is a registered expectation. */
  predicate WellFormed(s: ServerState) {
    s.active.Some? ==> s.active.value in s.registry
  }

  /**
   * Adds `c` to the pending condition: the first condition is kept as it is, a later
   * one is joined to the earlier ones by a conjunction, so that (by `Holds`) the result
   * requires the opaque conditions of both.
   */
  function Conjoin(current: Option<Condition>, c: Condition): (r: Condition)
    ensures current.None? ==> r == c
    ensures Leaves(r) == (if current.Some? then Leaves(current.value) else {}) + Leaves(c)
  {
    match current
    case None => c
    case Some(previous) => And(previous, c)
  }

  /** The opaque conditions that the conditions `cs` are built from, taken together. */
  function LeavesOfAll(cs: seq<Condition>): (ids: set<nat>)
    ensures forall i :: 0 <= i < |cs| ==> Leaves(cs[i]) <= ids
  {
    if cs == [] then {}
    else
      var init := cs[..|cs| - 1];
      assert forall i :: 0 <= i < |init| ==> init[i] == cs[i];
      LeavesOfAll(init) + Leaves(cs[|cs| - 1])
  }

  /**
   * The pending condition after adding each of `cs` in turn: there is one exactly when
   * one was pending or something was added, and it is built from the opaque conditions
   * of the earlier one and of every added one.
   */
  function Accumulate(pending: Option<Condition>, cs: seq<Condition>): (r: Option<Condition>)
    ensures r.Some? <==> pending.Some? || cs != []
    ensures r.Some? ==> Leaves(r.value) == (if pending.Some? then Leaves(pending.value) else {}) + LeavesOfAll(cs)
  {
    if cs == [] then pending
    else Some(Conjoin(Accumulate(pending, cs[..|cs| - 1]), cs[|cs| - 1]))
  }

  /** The accumulated condition holds exactly when the earlier one and every added condition hold. */
  lemma {:induction false} AccumulateIsConjunction(
    pending: Option<Condition>, cs: seq<Condition>,
    request: HttpRequest, leafHolds: (nat, HttpRequest) -> bool)
    ensures (pending.Some? || cs != []) <==> Accumulate(pending, cs).Some?
    ensures Accumulate(pending, cs).Some? ==>
              (Holds(Accumulate(pending, cs).value, request, leafHolds) <==>
                 (pending.Some? ==> Holds(pending.value, request, leafHolds)) &&
                 forall i :: 0 <= i < |cs| ==> Holds(cs[i], request, leafHolds))
  {
    if cs != [] {
      var init := cs[..|cs| - 1];
      AccumulateIsConjunction(pending, init, request, leafHolds);
      assert forall i :: 0 <= i < |init| ==> init[i] == cs[i];
    }
  }

  /** `targetRequest`: re-activate a registered pattern, or register a fresh one and activate it. */
  function Targeted(s: ServerState, request: HttpRequest): (t: ServerState)
    ensures WellFormed(t)
    ensures t.active == Some(request) && t.received == s.received
    ensures t.registry.Keys == s.registry.Keys + {request}
    ensures forall q :: q in s.registry ==> t.registry[q] == s.registry[q]
    ensures request !in s.registry ==> t.registry[request] == Expectation([], None)
  {
    if request in s.registry then s.(active := Some(request))
    else s.(registry := s.registry[request := Expectation([], None)], active := Some(request))
  }

  /** `addCondition`: AND a condition onto the active target's pending condition. */
  function WithCondition(s: ServerState, c: Condition): (r: Result<ServerState, MockError>)
    requires WellFormed(s)
    ensures s.active.None? ==> r == Failure(NoActiveExpectation)
    ensures s.active.Some? ==>
              var a := s.active.value;
              && r.Success? && WellFormed(r.value)
              && r.value.active == s.active && r.value.received == s.received
              && r.value.registry.Keys == s.registry.Keys
              && (forall q :: q in s.registry && q != a ==> r.value.registry[q] == s.registry[q])
              && r.value.registry[a].providers == s.registry[a].providers
              && r.value.registry[a].pending == Accumulate(s.registry[a].pending, [c])
  {
    match s.active
    case None => Failure(NoActiveExpectation)
    case Some(a) =>
      var e := s.registry[a];
      assert [c][..0] == [];
      Success(s.(registry := s.registry[a := e.(pending := Some(Conjoin(e.pending, c)))]))
  }

  /** Whether a provider survives the `removeIf` of a new provider with condition `c`. */
  predicate Survives(p: ResponseProvider, c: Condition) {
    p.Conditional? && p.condition != c
  }

  /**
   * The providers kept when a provider with condition `c` is added: every provider
   * that is not conditional, and every one with the same condition, is dropped.
   */
  function RemoveReplaced(ps: seq<ResponseProvider>, c: Condition): (r: seq<ResponseProvider>)
    ensures |r| <= |ps|
  {
    if ps == [] then []
    else (if Survives(ps[0], c) then [ps[0]] else []) + RemoveReplaced(ps[1..], c)
  }

  /** A provider is kept exactly when it was there and survives the new condition. */
  lemma {:induction false} RemoveReplacedMembers(ps: seq<ResponseProvider>, c: Condition)
    ensures forall p :: p in RemoveReplaced(ps, c) <==> p in ps && Survives(p, c)
  {
    if ps != [] {
      RemoveReplacedMembers(ps[1..], c);
      assert forall p :: p in ps <==> p == ps[0] || p in ps[1..];
    }
  }

  lemma {:induction false} RemoveReplacedConcat(a: seq<ResponseProvider>, b: seq<ResponseProvider>, c: Condition)
    ensures RemoveReplaced(a + b, c) == RemoveReplaced(a, c) + RemoveReplaced(b, c)
  {
    if a != [] {
      assert (a + b)[1..] == a[1..] + b;
      RemoveReplacedConcat(a[1..], b, c);
    } else {
      assert a + b == b;
    }
  }

  /**
   * Providers that survive keep their relative order: the survivor at index `i`
   * is found at position |RemoveReplaced(ps[..i], c)| of the result, and a later
   * survivor further on.
   */
  lemma RemoveReplacedKeepsOrder(ps: seq<ResponseProvider>, c: Condition, i: nat, j: nat)
    requires i < j < |ps| && Survives(ps[i], c) && Survives(ps[j], c)
    ensures var r := RemoveReplaced(ps, c);
            var pi, pj := |RemoveReplaced(ps[..i], c)|, |RemoveReplaced(ps[..j], c)|;
            pi < pj < |r| && r[pi] == ps[i] && r[pj] == ps[j]
  {
    SurvivorPosition(ps, c, i);
    SurvivorPosition(ps, c, j);
    assert ps[..j] == ps[..i] + ps[i..j];
    RemoveReplacedConcat(ps[..i], ps[i..j], c);
    assert ps[i..j][0] == ps[i];
  }

  lemma SurvivorPosition(ps: seq<ResponseProvider>, c: Condition, i: nat)
    requires i < |ps| && Survives(ps[i], c)
    ensures |RemoveReplaced(ps[..i], c)| < |RemoveReplaced(ps, c)|
    ensures RemoveReplaced(ps, c)[|RemoveReplaced(ps[..i], c)|] == ps[i]
  {
    assert ps == ps[..i] + ps[i..];
    RemoveReplacedConcat(ps[..i], ps[i..], c);
  }

  /**
   * `configureResponseWithCode`: take the pending condition (or MATCH_ALL), clear it,
   * drop every provider that is not conditional or has that same condition, and put
   * the new provider first.
   */
  function WithResponse(s: ServerState, code: int, body: string): (r: Result<ServerState, MockError>)
    requires WellFormed(s)
    ensures s.active.None? ==> r == Failure(NoActiveExpectation)
    ensures s.active.Some? ==>
              var a := s.active.value;
              var condition := s.registry[a].pending.GetOr(MatchAll);
              && r.Success? && WellFormed(r.value)
              && r.value.active == s.active && r.value.received == s.received
              && r.value.registry.Keys == s.registry.Keys
              && (forall q :: q in s.registry && q != a ==> r.value.registry[q] == s.registry[q])
              && var after := r.value.registry[a].providers;
              && r.value.registry[a].pending == None
              && |after| > 0
              && after[0] == Conditional(condition, HttpResponse(code, body))
              && (forall k :: 0 < k < |after| ==> after[k].Conditional? && after[k].condition != condition)
              && after[1..] == RemoveReplaced(s.registry[a].providers, condition)
  {
    match s.active
    case None => Failure(NoActiveExpectation)
    case Some(a) =>
      var e := s.registry[a];
      var condition := e.pending.GetOr(MatchAll);
      var providers := [Conditional(condition, HttpResponse(code, body))] + RemoveReplaced(e.providers, condition);
      RemoveReplacedMembers(e.providers, condition);
      assert forall k :: 0 < k < |providers| ==> providers[k] in RemoveReplaced(e.providers, condition);
      Success(s.(registry := s.registry[a := Expectation(providers, None)]))
  }

  /** `cleanExpectations`: no expectation, no recorded request, no active target. */
  function Cleaned(s: ServerState): (t: ServerState)
    ensures WellFormed(t) && t.registry == map[] && t.active == None && t.received == []
  {
    ServerState(map[], None, [])
  }

  /** Configuring a response twice for the same condition leaves exactly one provider for it, first in line. */
  lemma ReconfigureReplaces(s: ServerState, c: Condition, code1: int, body1: string, code2: int, body2: string)
    requires WellFormed(s) && s.active.Some?
    requires s.registry[s.active.value].pending == Some(c)
    ensures var s1 := WithResponse(s, code1, body1).value;
            var s2 := WithResponse(WithCondition(s1, c).value, code2, body2).value;
            var ps := s2.registry[s.active.value].providers;
            && ps[0] == Conditional(c, HttpResponse(code2, body2))
            && (forall k :: 0 < k < |ps| ==> ps[k].Conditional? && ps[k].condition != c)
  {
    var s1 := WithResponse(s, code1, body1).value;
    assert s1.registry[s.active.value].pending == None;
    var s1' := WithCondition(s1, c).value;
    assert s1'.registry[s.active.value].pending == Some(c);
  }

  /** Index of the first candidate the lenient comparison accepts, if any. */
  function FirstMatch(expected: Json, candidates: seq<Json>, compareAndBind: Comparator): (k: Option<nat>)
    ensures k.Some? ==> k.value < |candidates|
    ensures k.Some? ==> |compareAndBind(expected, candidates[k.value], false).errors| == 0
    ensures k.Some? ==> forall j :: 0 <= j < k.value ==> |compareAndBind(expected, candidates[j], false).errors| > 0
    ensures k.None? ==> forall j :: 0 <= j < |candidates| ==> |compareAndBind(expected, candidates[j], false).errors| > 0
  {
    if candidates == [] then None
    else if |compareAndBind(expected, candidates[0], false).errors| == 0 then Some(0)
    else
      match FirstMatch(expected, candidates[1..], compareAndBind)
      case None => None
      case Some(k) => Some(k + 1)
  }

  /**
   * Each candidate, in order, with the errors its lenient comparison reported; when no
   * candidate matched, every report carries at least one error.
   */
  function Reports(expected: Json, candidates: seq<Json>, compareAndBind: Comparator): (r: seq<(Json, seq<string>)>)
    ensures |r| == |candidates|
    ensures forall i :: 0 <= i < |candidates| ==> r[i].0 == candidates[i]
    ensures forall i :: 0 <= i < |candidates| ==> r[i].1 == compareAndBind(expected, candidates[i], false).errors
    ensures FirstMatch(expected, candidates, compareAndBind).None? ==> forall i :: 0 <= i < |r| ==> |r[i].1| > 0
  {
    seq(|candidates|, i requires 0 <= i < |candidates| =>
      (candidates[i], compareAndBind(expected, candidates[i], false).errors))
  }

  // ---------------------------------------------------------------------------
  // The objects

  class ExpectationInfo {
    const request: HttpRequest
    var responseProviders: seq<ResponseProvider>
    var dynamicRequestCondition: Option<Condition>

    constructor (request: HttpRequest)
      ensures this.request == request
      ensures responseProviders == [] && dynamicRequestCondition == None
    {
      this.request := request;
      responseProviders := [];
      dynamicRequestCondition := None;
    }

    function View(): Expectation
      reads this
    {
      Expectation(responseProviders, dynamicRequestCondition)
    }

    /**
     * The server's answer to a request for this pattern: the first response a
     * provider gives, in list order; a failure naming the request and every
     * provider when none answers.
     */
    method Respond(req: HttpRequest, maybeRespond: (ResponseProvider, HttpRequest) -> Option<HttpResponse>)
      returns (r: Result<HttpResponse, MockError>)
      ensures r.Success? ==>
                exists i :: 0 <= i < |responseProviders| &&
                  maybeRespond(responseProviders[i], req) == Some(r.value) &&
                  forall j :: 0 <= j < i ==> maybeRespond(responseProviders[j], req).None?
      ensures r.Failure? ==>
                (forall i :: 0 <= i < |responseProviders| ==> maybeRespond(responseProviders[i], req).None?) &&
                r.error == NoMatchingProvider(req, responseProviders)
    {
      var providers := responseProviders;
      for i := 0 to |providers|
        invariant forall j :: 0 <= j < i ==> maybeRespond(providers[j], req).None?
      {
        var response := maybeRespond(providers[i], req);
        if response.Some? {
          return Success(response.value);
        }
      }
      return Failure(NoMatchingProvider(req, providers));
    }
  }

  /** Ties a method's outcome and new state to what its specification function prescribes. */
  ghost predicate Realizes(r: Outcome<MockError>, before: ServerState, after: ServerState,
                           spec: Result<ServerState, MockError>)
  {
    match spec
    case Success(s) => r == Pass && after == s
    case Failure(e) => r == Fail(e) && after == before
  }

  class MockHttpServerManager {
    const dynamicContext: DynamicBindingContext
    var expectations: map<HttpRequest, ExpectationInfo>
    var receivedRequests: seq<HttpRequest>
    var activeExpectationInfo: ExpectationInfo?

    /** Each expectation is filed under its own request, and the active one is registered. */
    ghost predicate Valid()
      reads this, expectations.Values
    {
      && (forall q :: q in expectations ==> expectations[q].request == q)
      && (activeExpectationInfo != null ==>
            activeExpectationInfo.request in expectations &&
            expectations[activeExpectationInfo.request] == activeExpectationInfo)
    }

    ghost function State(): ServerState
      reads this, expectations.Values
    {
      ServerState(
        map q | q in expectations :: expectations[q].View(),
        if activeExpectationInfo == null then None else Some(activeExpectationInfo.request),
        receivedRequests)
    }

    constructor (dynamicContext: DynamicBindingContext)
      ensures Valid() && this.dynamicContext == dynamicContext
      ensures State() == ServerState(map[], None, [])
    {
      this.dynamicContext := dynamicContext;
      expectations := map[];
      receivedRequests := [];
      activeExpectationInfo := null;
    }

    method CleanExpectations()
      requires Valid()
      modifies this
      ensures Valid() && State() == Cleaned(old(State()))
    {
      expectations := map[];
      receivedRequests := [];
      activeExpectationInfo := null;
    }

    method TargetRequest(request: HttpRequest)
      requires Valid()
      modifies this
      ensures Valid() && State() == Targeted(old(State()), request)
      ensures forall q :: q in old(expectations) ==> q in expectations && expectations[q] == old(expectations[q])
    {
      if request in expectations {
        activeExpectationInfo := expectations[request];
        return;
      }
      var info := new ExpectationInfo(request);
      expectations := expectations[request := info];
      activeExpectationInfo := info;
    }

    method AddCondition(c: Condition) returns (r: Outcome<MockError>)
      requires Valid()
      modifies activeExpectationInfo
      ensures Valid() && WellFormed(old(State()))
      ensures Realizes(r, old(State()), State(), WithCondition(old(State()), c))
    {
      if activeExpectationInfo == null {
        return Fail(NoActiveExpectation);
      }
      var current := activeExpectationInfo.dynamicRequestCondition;
      activeExpectationInfo.dynamicRequestCondition := Some(Conjoin(current, c));
      r := Pass;
    }

    method ConfigureResponseWithCode(code: int, response: string) returns (r: Outcome<MockError>)
      requires Valid()
      modifies activeExpectationInfo
      ensures Valid() && WellFormed(old(State()))
      ensures Realizes(r, old(State()), State(), WithResponse(old(State()), code, response))
    {
      if activeExpectationInfo == null {
        return Fail(NoActiveExpectation);
      }
      var condition := activeExpectationInfo.dynamicRequestCondition.GetOr(MatchAll);
      activeExpectationInfo.dynamicRequestCondition := None;
      var newResponseProvider := Conditional(condition, HttpResponse(code, response));
      activeExpectationInfo.responseProviders := RemoveReplaced(activeExpectationInfo.responseProviders, condition);
      activeExpectationInfo.responseProviders := [newResponseProvider] + activeExpectationInfo.responseProviders;
      r := Pass;
    }

    /**
     * Scans the recorded request bodies in order; the first one the lenient comparison
     * accepts has its captured bindings stored, and only that one. When none is accepted
     * the verification fails, reporting every candidate with its errors, and nothing is stored.
     */
    method VerifyRequestReceived(httpMethod: string, path: string, expectedRawJson: string,
                                 expected: Json, candidates: seq<Json>, compareAndBind: Comparator)
      returns (r: Outcome<MockError>)
      requires dynamicContext.Valid()
      modifies dynamicContext
      ensures dynamicContext.Valid()
      ensures match FirstMatch(expected, candidates, compareAndBind)
              case Some(k) =>
                var stored := StoreAll(old(dynamicContext.bindings),
                                       compareAndBind(expected, candidates[k], false).boundDynamicValues);
                && dynamicContext.bindings == stored.0
                && (stored.1 == Pass ==> r == Pass)
                && (stored.1.Fail? ==> r == Fail(BindingFailed(stored.1.error)))
              case None =>
                && r == Fail(RequestNotReceived(httpMethod, path, expectedRawJson,
                                                Reports(expected, candidates, compareAndBind)))
                && dynamicContext.bindings == old(dynamicContext.bindings)
    {
      var bodiesWithErrors: seq<(Json, seq<string>)> := [];
      for i := 0 to |candidates|
        invariant forall j :: 0 <= j < i ==> |compareAndBind(expected, candidates[j], false).errors| > 0
        invariant |bodiesWithErrors| == i
        invariant forall j :: 0 <= j < i ==>
                    bodiesWithErrors[j] == (candidates[j], compareAndBind(expected, candidates[j], false).errors)
        invariant dynamicContext.bindings == old(dynamicContext.bindings)
      {
        var result := compareAndBind(expected, candidates[i], false);
        if |result.errors| == 0 {
          FirstMatchIsFirstAccepted(expected, candidates, compareAndBind, i);
          var stored := dynamicContext.StoreBindings(result.boundDynamicValues);
          if stored.Fail? {
            return Fail(BindingFailed(stored.error));
          }
          return Pass;
        }
        bodiesWithErrors := bodiesWithErrors + [(candidates[i], result.errors)];
      }
      assert candidates[..|candidates|] == candidates;
      assert bodiesWithErrors == Reports(expected, candidates, compareAndBind);
      r := Fail(RequestNotReceived(httpMethod, path, expectedRawJson, bodiesWithErrors));
    }

    /** Fails, listing the recorded requests, when any request was made. */
    method VerifyNoCallIsMade(httpMethod: string, path: string, requests: seq<HttpRequest>)
      returns (r: Outcome<MockError>)
      ensures r.Pass? <==> requests == []
      ensures r.Fail? ==> r.error == UnexpectedCalls(httpMethod, path, requests)
    {
      if |requests| > 0 {
        return Fail(UnexpectedCalls(httpMethod, path, requests));
      }
      r := Pass;
    }
  }

  /** A candidate that is accepted after every earlier one was rejected is the first match. */
  lemma FirstMatchIsFirstAccepted(expected: Json, candidates: seq<Json>, compareAndBind: Comparator, i: nat)
    requires i < |candidates|
    requires forall j :: 0 <= j < i ==> |compareAndBind(expected, candidates[j], false).errors| > 0
    requires |compareAndBind(expected, candidates[i], false).errors| == 0
    ensures FirstMatch(expected, candidates, compareAndBind) == Some(i)
  {
  }
}
