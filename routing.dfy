/**
 * The first `executar_fluxo_assessor` (aula7.py, and the first definition in aula8.py):
 * the router model's text reply is parsed for `CLARIFY=` and `ROUTE=`, and the turn is
 * either answered directly, refused, or dispatched to one specialist and then to the
 * orchestrator. The language-model chains are uninterpreted text functions.
 */
module Routing {
  import opened Wrappers
  import opened Text
  import opened Sessions

  /** The specialist chains that `rota_map` names. */
  datatype Chain = Financeiro | Agenda | Academia | Alimentacao | Faq

  /** `rota_map`; `fora_escopo` is present but mapped to `None`. */
  const ROTA_MAP: map<string, Option<Chain>> := map[
    "financeiro" := Some(Financeiro),
    "agenda" := Some(Agenda),
    "academia" := Some(Academia),
    "alimentacao" := Some(Alimentacao),
    "faq" := Some(Faq),
    "fora_escopo" := None
  ]

  /** `rota_map.get(route)`, flattened: `None` both for a missing key and for `fora_escopo`. */
  function ChainFor(route: string): (r: Option<Chain>)
    ensures r.Some? <==> route in ROTA_MAP && ROTA_MAP[route].Some?
    ensures r.Some? ==> ROTA_MAP[route] == r
  {
    if route in ROTA_MAP then ROTA_MAP[route] else None
  }

  const CLARIFY_KEY: string := "CLARIFY="
  const ROUTE_KEY: string := "ROUTE="

  // ---------------------------------------------------------------------------
  // The two regular expressions
  // ---------------------------------------------------------------------------

  /**
   * `CLARIFY_PATTERN.search(reply).group(1)` for `CLARIFY=(.*)` with DOTALL: everything
   * after the first `CLARIFY=`, to the end of the text, or `None` when there is none.
   */
  function ClarifyCapture(reply: string): (r: Option<string>)
    ensures r.Some? <==> Contains(reply, CLARIFY_KEY)
    ensures r.Some? ==> exists i | 0 <= i <= |reply| - |CLARIFY_KEY| ::
                          OccursAt(reply, CLARIFY_KEY, i) && r.value == reply[i + |CLARIFY_KEY|..]
                          && forall j :: 0 <= j < i ==> !OccursAt(reply, CLARIFY_KEY, j)
  {
    var i := Find(reply, CLARIFY_KEY);
    if i == -1 then None else Some(reply[i + |CLARIFY_KEY|..])
  }

  /** `ROUTE=` at position `i`, followed by at least one `\w` character: where `ROUTE=(\w+)` can match. */
  predicate RouteMatchAt(s: string, i: int) {
    OccursAt(s, ROUTE_KEY, i) && i + |ROUTE_KEY| < |s| && IsWordChar(s[i + |ROUTE_KEY|])
  }

  /** The length of the run of `\w` characters starting at `i` (greedy `\w+`). */
  function WordRun(s: string, i: nat): (n: nat)
    requires i <= |s|
    ensures i + n <= |s|
    ensures forall k :: i <= k < i + n ==> IsWordChar(s[k])
    ensures i + n == |s| || !IsWordChar(s[i + n])
    decreases |s| - i
  {
    if i < |s| && IsWordChar(s[i]) then 1 + WordRun(s, i + 1) else 0
  }

  /** The leftmost match position of `ROUTE=(\w+)` at or after `from`, if any. */
  function RouteMatchFrom(s: string, from: nat): (r: Option<nat>)
    requires from <= |s|
    ensures r.Some? ==> from <= r.value && RouteMatchAt(s, r.value)
                        && forall j :: from <= j < r.value ==> !RouteMatchAt(s, j)
    ensures r.None? ==> forall j :: from <= j ==> !RouteMatchAt(s, j)
    decreases |s| - from
  {
    if RouteMatchAt(s, from) then Some(from)
    else if from == |s| then None
    else RouteMatchFrom(s, from + 1)
  }

  /**
   * `ROUTE_PATTERN.search(reply).group(1)`: at the leftmost position where `ROUTE=` is
   * followed by a word character, the longest run of word characters after it.
   */
  function RouteCapture(s: string): (r: Option<string>)
    ensures r.None? <==> forall j :: 0 <= j ==> !RouteMatchAt(s, j)
    ensures r.Some? ==> exists i | 0 <= i <= |s| - |ROUTE_KEY| ::
                          RouteMatchAt(s, i) && (forall j :: 0 <= j < i ==> !RouteMatchAt(s, j))
                          && var start := i + |ROUTE_KEY|;
                          start + |r.value| <= |s| && r.value == s[start..start + |r.value|]
                          && (start + |r.value| == |s| || !IsWordChar(s[start + |r.value|]))
    ensures r.Some? ==> |r.value| > 0 && forall k :: 0 <= k < |r.value| ==> IsWordChar(r.value[k])
  {
    match RouteMatchFrom(s, 0)
    case None => None
    case Some(i) =>
      var start := i + |ROUTE_KEY|;
      var n := WordRun(s, start);
      Some(s[start..start + n])
  }

  // ---------------------------------------------------------------------------
  // One turn
  // ---------------------------------------------------------------------------

  /**
   * The chains a turn may call, each seen as a text function (its result already passed
   * through `to_safe_str`): the router, the specialist named by a route, the orchestrator.
   */
  datatype Chains = Chains(router: string -> string, specialist: (Chain, string) -> string,
                           orchestrator: string -> string)

  /** A call one turn makes, with the input it passes. */
  datatype Call = CallRouter(input: string) | CallSpecialist(chain: Chain, input: string)
                | CallOrchestrator(input: string)

  /** The answer of a turn and the chain calls it made, in order. */
  datatype Turn = Turn(answer: string, calls: seq<Call>)

  /** The refusal for a route that `rota_map` does not configure. */
  function UnconfiguredRoute(route: string): string {
    "[Erro] Rota '" + route + "' n\U{E3}o configurada."
  }

  /**
   * `executar_fluxo_assessor(pergunta, session_id)`, first version. The router always runs
   * first on the sanitised input; the turn then makes either no further call or exactly a
   * specialist call on that same input followed by an orchestrator call on its output.
   * By case of the router's reply: a usable clarification is the answer; with no route
   * capture the trimmed reply is; an unconfigured route is refused; a configured one is
   * dispatched.
   */
  function ExecutarFluxo(pergunta: PyText, ch: Chains): (t: Turn)
    ensures |t.calls| >= 1 && t.calls[0] == CallRouter(SanitizeInput(pergunta))
    ensures |t.calls| == 1 || |t.calls| == 3
    ensures |t.calls| == 3 ==>
              t.calls[1].CallSpecialist? && t.calls[1].input == SanitizeInput(pergunta)
              && t.calls[2] == CallOrchestrator(ch.specialist(t.calls[1].chain, t.calls[1].input))
              && t.answer == ch.orchestrator(t.calls[2].input)
    ensures var c := ClarifyCapture(ch.router(SanitizeInput(pergunta)));
            c.Some? && Strip(c.value) != [] ==>
              t == Turn(Strip(c.value), [CallRouter(SanitizeInput(pergunta))])
    ensures var reply := ch.router(SanitizeInput(pergunta)); var c := ClarifyCapture(reply);
            (c.None? || Strip(c.value) == []) && RouteCapture(reply).None? ==>
              t == Turn(Strip(reply), [CallRouter(SanitizeInput(pergunta))])
    ensures var reply := ch.router(SanitizeInput(pergunta)); var c := ClarifyCapture(reply);
            var r := RouteCapture(reply);
            (c.None? || Strip(c.value) == []) && r.Some? ==>
              (ChainFor(r.value).None? ==>
                 t == Turn(UnconfiguredRoute(r.value), [CallRouter(SanitizeInput(pergunta))]))
              && (ChainFor(r.value).Some? ==> t.calls[1..] == [
                    CallSpecialist(ChainFor(r.value).value, SanitizeInput(pergunta)),
                    CallOrchestrator(ch.specialist(ChainFor(r.value).value, SanitizeInput(pergunta)))])
  {
    var safeInput := SanitizeInput(pergunta);
    var reply := ch.router(safeInput);
    var clarify := ClarifyCapture(reply);
    if clarify.Some? && Strip(clarify.value) != [] then
      Turn(Strip(clarify.value), [CallRouter(safeInput)])
    else
      match RouteCapture(reply)
      case None => Turn(Strip(reply), [CallRouter(safeInput)])
      case Some(route) =>
        match ChainFor(route)
        case None => Turn(UnconfiguredRoute(route), [CallRouter(safeInput)])
        case Some(k) =>
          var especialista := ch.specialist(k, safeInput);
          Turn(ch.orchestrator(especialista),
               [CallRouter(safeInput), CallSpecialist(k, safeInput), CallOrchestrator(especialista)])
  }

  /** The router's reply for this turn. */
  function RouterReply(pergunta: PyText, ch: Chains): string {
    ch.router(SanitizeInput(pergunta))
  }

  /** A non-empty trimmed `CLARIFY=` capture is the answer, whatever `ROUTE=` says, and nothing else runs. */
  lemma ClarifyWins(pergunta: PyText, ch: Chains)
    requires ClarifyCapture(RouterReply(pergunta, ch)).Some?
    requires Strip(ClarifyCapture(RouterReply(pergunta, ch)).value) != []
    ensures ExecutarFluxo(pergunta, ch).answer == Strip(ClarifyCapture(RouterReply(pergunta, ch)).value)
    ensures ExecutarFluxo(pergunta, ch).calls == [CallRouter(SanitizeInput(pergunta))]
  {
  }

  /** Without a usable clarification and without a `ROUTE=\w+` match, the trimmed reply is the answer. */
  lemma DirectReply(pergunta: PyText, ch: Chains)
    requires var c := ClarifyCapture(RouterReply(pergunta, ch)); c.None? || Strip(c.value) == []
    requires RouteCapture(RouterReply(pergunta, ch)).None?
    ensures ExecutarFluxo(pergunta, ch).answer == Strip(RouterReply(pergunta, ch))
    ensures |ExecutarFluxo(pergunta, ch).calls| == 1
  {
  }

  /** A route outside `rota_map`, or `fora_escopo`, is refused and no specialist runs. */
  lemma UnknownRouteRefused(pergunta: PyText, ch: Chains)
    requires var c := ClarifyCapture(RouterReply(pergunta, ch)); c.None? || Strip(c.value) == []
    requires var r := RouteCapture(RouterReply(pergunta, ch)); r.Some? && ChainFor(r.value).None?
    ensures ExecutarFluxo(pergunta, ch).answer
            == UnconfiguredRoute(RouteCapture(RouterReply(pergunta, ch)).value)
    ensures forall c :: c in ExecutarFluxo(pergunta, ch).calls ==> c.CallRouter?
  {
  }

  /**
   * On a configured route the specialist receives the sanitised user input (not the
   * router's text), the orchestrator receives the specialist's output, and the
   * orchestrator's reply is the answer.
   */
  lemma DispatchedRoute(pergunta: PyText, ch: Chains)
    requires var c := ClarifyCapture(RouterReply(pergunta, ch)); c.None? || Strip(c.value) == []
    requires var r := RouteCapture(RouterReply(pergunta, ch)); r.Some? && ChainFor(r.value).Some?
    ensures var k := ChainFor(RouteCapture(RouterReply(pergunta, ch)).value).value;
            var s := SanitizeInput(pergunta);
            var e := ch.specialist(k, s);
            ExecutarFluxo(pergunta, ch) == Turn(ch.orchestrator(e),
              [CallRouter(s), CallSpecialist(k, s), CallOrchestrator(e)])
  {
  }

  // ---------------------------------------------------------------------------
  // The router's reply protocol
  // ---------------------------------------------------------------------------

  /** The four fields the routing prompt asks the router model to write, one per line. */
  datatype Directive = Directive(route: string, pergunta: string, persona: string, clarify: string)

  /** The reply text for a directive: `ROUTE=`, `PERGUNTA_ORIGINAL=`, `PERSONA=`, `CLARIFY=` lines. */
  function Render(d: Directive): string {
    Head(d) + CLARIFY_KEY + d.clarify
  }

  /** Everything that precedes the `CLARIFY=` field. */
  function Head(d: Directive): string {
    ROUTE_KEY + d.route + MiddleLines(d)
  }

  /** The line break after the route and the `PERGUNTA_ORIGINAL=` and `PERSONA=` lines. */
  function MiddleLines(d: Directive): string {
    "\nPERGUNTA_ORIGINAL=" + d.pergunta + "\nPERSONA=" + d.persona + "\n"
  }

  /** A route the router writes: a non-empty run of word characters. */
  predicate IsRouteToken(r: string) {
    |r| > 0 && forall k :: 0 <= k < |r| ==> IsWordChar(r[k])
  }

  /** `CLARIFY=` cannot straddle a newline, so it never starts inside a head that ends with one and lacks it. */
  lemma NoClarifyAcrossNewline(h: string, tail: string)
    requires |h| > 0 && h[|h| - 1] == '\n'
    requires !Contains(h, CLARIFY_KEY)
    ensures forall i :: 0 <= i < |h| ==> !OccursAt(h + tail, CLARIFY_KEY, i)
  {
    var s := h + tail;
    forall i | 0 <= i < |h|
      ensures !OccursAt(s, CLARIFY_KEY, i)
    {
      if i + |CLARIFY_KEY| > |s| {
      } else if i + |CLARIFY_KEY| <= |h| {
        assert s[i..i + |CLARIFY_KEY|] == h[i..i + |CLARIFY_KEY|];
        assert !OccursAt(h, CLARIFY_KEY, i);
      } else {
        var k := |h| - 1 - i;
        assert s[i..i + |CLARIFY_KEY|][k] == '\n' != CLARIFY_KEY[k];
      }
    }
  }

  /** Round trip: the clarification field of a rendered directive is captured back exactly. */
  lemma ClarifyOfRender(d: Directive)
    requires !Contains(Head(d), CLARIFY_KEY)
    ensures ClarifyCapture(Render(d)) == Some(d.clarify)
  {
    var h := Head(d);
    var s := Render(d);
    assert s == h + (CLARIFY_KEY + d.clarify);
    assert OccursAt(s, CLARIFY_KEY, |h|) by {
      assert s[|h|..|h| + |CLARIFY_KEY|] == CLARIFY_KEY;
    }
    NoClarifyAcrossNewline(h, CLARIFY_KEY + d.clarify);
    assert Find(s, CLARIFY_KEY) == |h|;
  }

  /** Round trip: the route token of a rendered directive is captured back exactly. */
  lemma RouteOfRender(d: Directive)
    requires IsRouteToken(d.route)
    ensures RouteCapture(Render(d)) == Some(d.route)
  {
    var rest := MiddleLines(d) + CLARIFY_KEY + d.clarify;
    assert Render(d) == ROUTE_KEY + d.route + rest;
    assert rest[0] == '\n';
    RouteBeforeNewline(d.route, rest);
  }

  /** `ROUTE=` at the very start, then a route token, then a line break: the token is captured. */
  lemma RouteBeforeNewline(route: string, rest: string)
    requires IsRouteToken(route) && rest != [] && rest[0] == '\n'
    ensures RouteCapture(ROUTE_KEY + route + rest) == Some(route)
  {
    var s := ROUTE_KEY + route + rest;
    var n := |ROUTE_KEY|;
    assert s[..n] == ROUTE_KEY;
    assert s[n..n + |route|] == route;
    assert s[n + |route|] == '\n';
    assert RouteMatchAt(s, 0);
    assert RouteMatchFrom(s, 0) == Some(0);
    WordRunExact(s, n, |route|);
  }

  /** The run of word characters at `i` is exactly `n` long when `n` word characters are followed by a non-word one. */
  lemma {:induction false} WordRunExact(s: string, i: nat, n: nat)
    requires i + n < |s|
    requires forall k :: i <= k < i + n ==> IsWordChar(s[k])
    requires !IsWordChar(s[i + n])
    ensures WordRun(s, i) == n
    decreases n
  {
    if n > 0 {
      WordRunExact(s, i + 1, n - 1);
    }
  }

  /** A well-formed directive with a non-blank clarification is answered by it, even though a route is present. */
  lemma {:induction false} DirectiveClarifies(pergunta: PyText, ch: Chains, d: Directive)
    requires RouterReply(pergunta, ch) == Render(d)
    requires !Contains(Head(d), CLARIFY_KEY) && Strip(d.clarify) != []
    ensures ExecutarFluxo(pergunta, ch).answer == Strip(d.clarify)
  {
    ClarifyOfRender(d);
    ClarifyWins(pergunta, ch);
  }

  /** A turn whose reply has a blank clarification and a route capture goes by that route. */
  lemma RoutedBy(pergunta: PyText, ch: Chains, route: string)
    requires var c := ClarifyCapture(RouterReply(pergunta, ch)); c.None? || Strip(c.value) == []
    requires RouteCapture(RouterReply(pergunta, ch)) == Some(route)
    ensures ChainFor(route).Some? ==>
              var calls := ExecutarFluxo(pergunta, ch).calls;
              |calls| == 3 && calls[1] == CallSpecialist(ChainFor(route).value, SanitizeInput(pergunta))
    ensures ChainFor(route).None? ==> ExecutarFluxo(pergunta, ch).answer == UnconfiguredRoute(route)
  {
  }

  /**
   * A well-formed directive with a blank clarification goes by its route: a configured route
   * reaches that route's specialist, any other is refused.
   */
  lemma {:induction false} DirectiveRoutes(pergunta: PyText, ch: Chains, d: Directive)
    requires RouterReply(pergunta, ch) == Render(d)
    requires IsRouteToken(d.route) && !Contains(Head(d), CLARIFY_KEY) && Strip(d.clarify) == []
    ensures ChainFor(d.route).Some? ==>
              var calls := ExecutarFluxo(pergunta, ch).calls;
              |calls| == 3 && calls[1] == CallSpecialist(ChainFor(d.route).value, SanitizeInput(pergunta))
    ensures ChainFor(d.route).None? ==> ExecutarFluxo(pergunta, ch).answer == UnconfiguredRoute(d.route)
  {
    ClarifyOfRender(d);
    RouteOfRender(d);
    RoutedBy(pergunta, ch, d.route);
  }
}
