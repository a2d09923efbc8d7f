/**
 * The LangGraph version of the turn in aula8.py: a `StateGraph(dict)` with the nodes
 * roteador, financeiro, agenda, faq and orquestrador, two conditional edges, and the
 * second `executar_fluxo_assessor` that reads the final state. The state is a map from
 * key to text; each node reads some keys and returns a partial state.
 */
module Graph {
  import opened Wrappers
  import opened Text
  import Routing

  /** The keys the nodes read and write: "input", "session_id", "rota", "roteador", "resposta_usuario", "erro", "saida_especialista". */
  datatype Key = Input | SessionId | Rota | RoteadorText | RespostaUsuario | Erro | SaidaEspecialista

  type State = map<Key, string>

  /** `state.get(k)` is truthy: the key is present with a non-empty text. */
  predicate Truthy(st: State, k: Key) {
    k in st && st[k] != ""
  }

  /** The models behind the nodes, as text functions (an agent's `result["output"]` for the specialists). */
  datatype Agents = Agents(router: string -> string, faq: string -> string, financeiro: string -> string,
                           agenda: string -> string, orchestrator: string -> string)

  datatype Node = Roteador | Financeiro | Agenda | Faq | Orquestrador

  /** What Python raises inside a node: a missing state key, or an index out of range. */
  datatype Fault = KeyError(key: Key) | IndexError

  /** A node either returns a partial state or raises. */
  datatype NodeResult = Update(partial: State) | Raise(fault: Fault)

  const ROUTE_KEY: string := Routing.ROUTE_KEY
  const VALID_ROUTES: set<string> := {"financeiro", "agenda", "faq"}

  // ---------------------------------------------------------------------------
  // Parsing the router's reply
  // ---------------------------------------------------------------------------

  /** `s.split("\n", 1)[0]`: the text before the first newline, or all of it. */
  function FirstLine(s: string): (r: string)
    ensures StartsWith(s, r)
    ensures forall k :: 0 <= k < |r| ==> r[k] != '\n'
    ensures |r| < |s| ==> s[|r|] == '\n'
  {
    var i := Find(s, "\n");
    if i == -1 then
      assert forall k :: 0 <= k < |s| ==> s[k] != '\n' by {
        forall k | 0 <= k < |s| ensures s[k] != '\n' {
          assert !OccursAt(s, "\n", k);
          assert s[k..k + 1] == [s[k]];
        }
      }
      s
    else
      assert forall k :: 0 <= k < i ==> s[k] != '\n' by {
        forall k | 0 <= k < i ensures s[k] != '\n' {
          assert !OccursAt(s, "\n", k);
          assert s[k..k + 1] == [s[k]];
        }
      }
      assert s[i..i + 1] == "\n";
      s[..i]
  }

  /** `s.split(c, 1)[1]`: the text after the first `c`; `None` where Python raises IndexError. */
  function SplitTail(s: string, c: char): (r: Option<string>)
    ensures r.None? <==> forall k :: 0 <= k < |s| ==> s[k] != c
  {
    var i := Find(s, [c]);
    if i == -1 then
      assert forall k :: 0 <= k < |s| ==> s[k] != c by {
        forall k | 0 <= k < |s| ensures s[k] != c {
          assert !OccursAt(s, [c], k);
          assert s[k..k + 1] == [s[k]];
        }
      }
      None
    else
      assert s[i..i + 1] == [c];
      assert s[i] == c;
      Some(s[i + 1..])
  }

  /** The route field as `router_node` extracts it: first line, after its first `=`. */
  function RouteField(reply: string): Option<string> {
    SplitTail(FirstLine(reply), '=')
  }

  /** For a reply that starts with `ROUTE=`, the route field is the rest of the first line after that prefix. */
  lemma RouteFieldOfRouteReply(reply: string)
    requires StartsWith(reply, ROUTE_KEY)
    ensures |FirstLine(reply)| >= |ROUTE_KEY|
    ensures RouteField(reply) == Some(FirstLine(reply)[|ROUTE_KEY|..])
  {
    var line := FirstLine(reply);
    assert forall k :: 0 <= k < |ROUTE_KEY| ==> reply[k] == ROUTE_KEY[k] != '\n';
    assert |line| >= |ROUTE_KEY|;
    assert line[..|ROUTE_KEY|] == ROUTE_KEY;
    var i := Find(line, "=");
    assert OccursAt(line, "=", 5) by {
      assert line[5..6] == [line[5]] == "=";
    }
    forall j | 0 <= j < 5 ensures !OccursAt(line, "=", j) {
      assert line[j..j + 1] == [line[j]] == [ROUTE_KEY[j]];
    }
    assert i == 5;
  }

  // ---------------------------------------------------------------------------
  // The nodes
  // ---------------------------------------------------------------------------

  /** The error text `router_node` stores under `erro` for a route outside the three it knows. */
  function InvalidRoute(rota: string): string {
    "Rota inv\U{E1}lida: " + rota
  }

  /**
   * `router_node`. `CLARIFY=` is not inspected. It raises only for a missing input or
   * session id; otherwise it either answers directly (the reply has no `ROUTE=` prefix),
   * or stores an error, or stores a known route together with the router's text.
   */
  function RouterNode(st: State, ag: Agents): (r: NodeResult)
    ensures r.Raise? <==> Input !in st || SessionId !in st
    ensures r.Raise? ==> r.fault.KeyError?
    ensures r.Update? ==>
              var reply := ag.router(st[Input]);
              && (RespostaUsuario in r.partial <==> !StartsWith(reply, ROUTE_KEY))
              && (RespostaUsuario in r.partial || Erro in r.partial || Rota in r.partial)
              && (Erro in r.partial ==> Rota !in r.partial)
              && (Rota in r.partial ==> r.partial[Rota] in VALID_ROUTES && RoteadorText in r.partial
                                        && r.partial[RoteadorText] == reply)
  {
    if Input !in st then Raise(KeyError(Input))
    else if SessionId !in st then Raise(KeyError(SessionId))
    else
      var reply := ag.router(st[Input]);
      if !StartsWith(reply, ROUTE_KEY) then Update(map[RespostaUsuario := reply])
      else
        RouteFieldOfRouteReply(reply);
        match RouteField(reply)
        case None => Raise(IndexError)
        case Some(field) =>
          var rota := ToLower(Strip(field));
          if rota !in VALID_ROUTES then Update(map[Erro := InvalidRoute(rota)])
          else Update(map[Rota := rota, RoteadorText := reply, Input := st[Input],
                          SessionId := st[SessionId]])
  }

  /** `faq_node`: the FAQ chain answers the user's input directly. */
  function FaqNode(st: State, ag: Agents): NodeResult {
    if Input !in st then Raise(KeyError(Input))
    else if SessionId !in st then Raise(KeyError(SessionId))
    else Update(map[RespostaUsuario := ag.faq(st[Input]), SessionId := st[SessionId]])
  }

  /** `financeiro_node` and `agenda_node`: the agent receives the router's text, not the user's input. */
  function SpecialistNode(agent: string -> string, st: State): NodeResult {
    if RoteadorText !in st then Raise(KeyError(RoteadorText))
    else if SessionId !in st then Raise(KeyError(SessionId))
    else Update(map[SaidaEspecialista := agent(st[RoteadorText]), SessionId := st[SessionId]])
  }

  /** `orchestrator_node`. */
  function OrchestratorNode(st: State, ag: Agents): NodeResult {
    if SaidaEspecialista !in st then Raise(KeyError(SaidaEspecialista))
    else if SessionId !in st then Raise(KeyError(SessionId))
    else Update(map[RespostaUsuario := ag.orchestrator(st[SaidaEspecialista])])
  }

  function RunNode(n: Node, st: State, ag: Agents): NodeResult {
    match n
    case Roteador => RouterNode(st, ag)
    case Financeiro => SpecialistNode(ag.financeiro, st)
    case Agenda => SpecialistNode(ag.agenda, st)
    case Faq => FaqNode(st, ag)
    case Orquestrador => OrchestratorNode(st, ag)
  }

  // ---------------------------------------------------------------------------
  // The edges
  // ---------------------------------------------------------------------------

  datatype Target = To(node: Node) | End

  /** The path map of the conditional edge out of roteador. */
  const ROUTER_EDGES: map<string, Target> :=
    map["financeiro" := To(Financeiro), "agenda" := To(Agenda), "faq" := To(Faq), "end" := End]

  /** The path map of the conditional edges out of financeiro and agenda. */
  const SPECIALIST_EDGES: map<string, Target> := map["orquestrador" := To(Orquestrador), "end" := End]

  /** `decide_after_router`: always a key of the path map. */
  function DecideAfterRouter(st: State): (r: string)
    ensures r in ROUTER_EDGES
    ensures r == "end" <==> Truthy(st, Erro) || Truthy(st, RespostaUsuario)
                            || Rota !in st || st[Rota] !in VALID_ROUTES
    ensures r != "end" ==> Rota in st && r == st[Rota]
  {
    if Truthy(st, Erro) || Truthy(st, RespostaUsuario) then "end"
    else if Rota in st && st[Rota] == "financeiro" then "financeiro"
    else if Rota in st && st[Rota] == "agenda" then "agenda"
    else if Rota in st && st[Rota] == "faq" then "faq"
    else "end"
  }

  /** `decide_after_specialist`: "end" exactly when `erro` is truthy, otherwise "orquestrador". */
  function DecideAfterSpecialist(st: State): (r: string)
    ensures r in SPECIALIST_EDGES
    ensures r == "end" <==> Truthy(st, Erro)
  {
    if Truthy(st, Erro) then "end" else "orquestrador"
  }

  /** The position of a node in the graph's topological order; every edge goes down. */
  function Rank(n: Node): nat {
    match n
    case Roteador => 2
    case Financeiro => 1
    case Agenda => 1
    case Faq => 1
    case Orquestrador => 0
  }

  /** Where the graph goes after node `n`, given the state after `n`. The graph is acyclic. */
  function Next(n: Node, st: State): (t: Target)
    ensures t.To? ==> Rank(t.node) < Rank(n)
    ensures n == Faq || n == Orquestrador ==> t == End
  {
    match n
    case Roteador => ROUTER_EDGES[DecideAfterRouter(st)]
    case Financeiro => SPECIALIST_EDGES[DecideAfterSpecialist(st)]
    case Agenda => SPECIALIST_EDGES[DecideAfterSpecialist(st)]
    case Faq => End
    case Orquestrador => End
  }

  // ---------------------------------------------------------------------------
  // Running the graph
  // ---------------------------------------------------------------------------

  /**
   * How a node's partial result enters the state: merged key by key (later writes win),
   * or, as LangGraph does for a `dict` state with no reducer, replacing it.
   */
  datatype Semantics = Merge | Replace

  function Apply(sem: Semantics, st: State, partial: State): (r: State)
    ensures partial.Keys <= r.Keys && forall k :: k in partial ==> r[k] == partial[k]
  {
    match sem
    case Merge => st + partial
    case Replace => partial
  }

  /** A run of the graph: the final state and the nodes visited, or the fault raised. */
  datatype Run = Finished(final: State, visited: seq<Node>) | Failed(fault: Fault, visited: seq<Node>)

  /** Runs the graph from node `n` on state `st`; every step goes down a strict rank. */
  function RunFrom(n: Node, st: State, ag: Agents, sem: Semantics): (r: Run)
    ensures 1 <= |r.visited| <= Rank(n) + 1 && r.visited[0] == n
    ensures forall i :: 0 < i < |r.visited| ==> Rank(r.visited[i]) < Rank(r.visited[i - 1])
    decreases Rank(n)
  {
    match RunNode(n, st, ag)
    case Raise(f) => Failed(f, [n])
    case Update(partial) =>
      var st' := Apply(sem, st, partial);
      match Next(n, st')
      case End => Finished(st', [n])
      case To(m) =>
        Prepend(n, RunFrom(m, st', ag, sem))
  }

  /** `app.invoke({"input": ..., "session_id": ...})`: START goes to roteador. */
  function Invoke(input: string, sessionId: string, ag: Agents, sem: Semantics): (r: Run)
    ensures 1 <= |r.visited| <= 3 && r.visited[0] == Roteador
  {
    RunFrom(Roteador, map[Input := input, SessionId := sessionId], ag, sem)
  }

  /** What the caller sees: the returned text, or the exception that escaped. */
  datatype Reply = Answer(text: string) | Raised(fault: Fault)

  const NO_ANSWER: string := "N\U{E3}o foi poss\U{ED}vel responder."

  /**
   * The second `executar_fluxo_assessor`: run the graph, then read the final state. No
   * exception reaches the caller, and the reply is the reference answer of the case the
   * router's reply falls in.
   */
  function ExecutarFluxo(pergunta: string, sessionId: string, ag: Agents, sem: Semantics): (r: Reply)
    ensures r == Answer(ExpectedAnswer(pergunta, ag))
  {
    TurnCharacterised(pergunta, sessionId, ag, sem);
    ReplyOf(Invoke(pergunta, sessionId, ag, sem))
  }

  /** What `executar_fluxo_assessor` makes of a run: `erro` wins, then `resposta_usuario`, then a fixed text. */
  function ReplyOf(r: Run): Reply {
    match r
    case Failed(f, _) => Raised(f)
    case Finished(final, _) =>
      if Truthy(final, Erro) then Answer("Erro: " + final[Erro])
      else Answer(if RespostaUsuario in final then final[RespostaUsuario] else NO_ANSWER)
  }

  // ---------------------------------------------------------------------------
  // What a turn does, stated directly
  // ---------------------------------------------------------------------------

  /** The route `router_node` reads from a reply that starts with `ROUTE=`. */
  function RouteOf(reply: string): string
    requires StartsWith(reply, ROUTE_KEY)
  {
    RouteFieldOfRouteReply(reply);
    ToLower(Strip(FirstLine(reply)[|ROUTE_KEY|..]))
  }

  /** The answer of a turn, by cases on the router's reply; the reference for `ExecutarFluxo`. */
  function ExpectedAnswer(pergunta: string, ag: Agents): string {
    var reply := ag.router(pergunta);
    if !StartsWith(reply, ROUTE_KEY) then reply
    else
      var rota := RouteOf(reply);
      if rota == "faq" then ag.faq(pergunta)
      else if rota == "financeiro" then ag.orchestrator(ag.financeiro(reply))
      else if rota == "agenda" then ag.orchestrator(ag.agenda(reply))
      else "Erro: " + InvalidRoute(rota)
  }

  /** The nodes a turn visits, by the same cases. */
  function ExpectedPath(pergunta: string, ag: Agents): seq<Node> {
    var reply := ag.router(pergunta);
    if !StartsWith(reply, ROUTE_KEY) then [Roteador]
    else
      var rota := RouteOf(reply);
      if rota == "faq" then [Roteador, Faq]
      else if rota == "financeiro" then [Roteador, Financeiro, Orquestrador]
      else if rota == "agenda" then [Roteador, Agenda, Orquestrador]
      else [Roteador]
  }

  /** The initial state. */
  function Start(input: string, sessionId: string): State {
    map[Input := input, SessionId := sessionId]
  }

  /** The run finished with `text` under `resposta_usuario` and no `erro`. */
  predicate Answered(r: Run, text: string) {
    r.Finished? && !Truthy(r.final, Erro) && RespostaUsuario in r.final && r.final[RespostaUsuario] == text
  }

  /** A reply that does not start with `ROUTE=` is the answer as it is, even empty; only roteador runs. */
  lemma {:induction false} DirectTurn(pergunta: string, sessionId: string, ag: Agents, sem: Semantics)
    requires !StartsWith(ag.router(pergunta), ROUTE_KEY)
    ensures var r := Invoke(pergunta, sessionId, ag, sem);
            Answered(r, ag.router(pergunta)) && r.visited == [Roteador]
  {
    var st := Start(pergunta, sessionId);
    var p := map[RespostaUsuario := ag.router(pergunta)];
    assert RunNode(Roteador, st, ag) == Update(p);
    RunFromStep(Roteador, st, ag, sem, p);
    var st' := Apply(sem, st, p);
    assert Erro !in st' && Rota !in st';
    assert DecideAfterRouter(st') == "end";
  }

  /** An unknown route ends the turn at roteador with the `erro` message. */
  lemma {:induction false} InvalidRouteTurn(pergunta: string, sessionId: string, ag: Agents, sem: Semantics)
    requires StartsWith(ag.router(pergunta), ROUTE_KEY)
    requires RouteOf(ag.router(pergunta)) !in VALID_ROUTES
    ensures var r := Invoke(pergunta, sessionId, ag, sem);
            r.Finished? && r.visited == [Roteador] && Truthy(r.final, Erro)
            && r.final[Erro] == InvalidRoute(RouteOf(ag.router(pergunta)))
  {
    var reply := ag.router(pergunta);
    RouteFieldOfRouteReply(reply);
    var st := Start(pergunta, sessionId);
    var p := map[Erro := InvalidRoute(RouteOf(reply))];
    assert RunNode(Roteador, st, ag) == Update(p);
    RunFromStep(Roteador, st, ag, sem, p);
    var st' := Apply(sem, st, p);
    assert Truthy(st', Erro);
    assert DecideAfterRouter(st') == "end";
  }

  /** The state after roteador on a known route. */
  function Routed(pergunta: string, sessionId: string, ag: Agents, sem: Semantics): State
    requires StartsWith(ag.router(pergunta), ROUTE_KEY)
  {
    var reply := ag.router(pergunta);
    Apply(sem, Start(pergunta, sessionId),
          map[Rota := RouteOf(reply), RoteadorText := reply, Input := pergunta, SessionId := sessionId])
  }

  /** A known route: roteador writes the route, the router text, the input and the session id. */
  lemma {:induction false} RouterStep(pergunta: string, sessionId: string, ag: Agents)
    requires StartsWith(ag.router(pergunta), ROUTE_KEY)
    requires RouteOf(ag.router(pergunta)) in VALID_ROUTES
    ensures RunNode(Roteador, Start(pergunta, sessionId), ag)
            == Update(map[Rota := RouteOf(ag.router(pergunta)), RoteadorText := ag.router(pergunta),
                          Input := pergunta, SessionId := sessionId])
  {
    var reply := ag.router(pergunta);
    RouteFieldOfRouteReply(reply);
    var st := Start(pergunta, sessionId);
    assert st[Input] == pergunta && st[SessionId] == sessionId;
    assert RouteField(reply) == Some(FirstLine(reply)[|ROUTE_KEY|..]);
  }

  /** After roteador on a known route, the state holds what the specialists need and nothing that ends the turn. */
  lemma {:induction false} RoutedState(pergunta: string, sessionId: string, ag: Agents, sem: Semantics)
    requires StartsWith(ag.router(pergunta), ROUTE_KEY)
    ensures var st := Routed(pergunta, sessionId, ag, sem);
            !Truthy(st, Erro) && !Truthy(st, RespostaUsuario) && st[Rota] == RouteOf(ag.router(pergunta))
            && st[Input] == pergunta && st[RoteadorText] == ag.router(pergunta) && st[SessionId] == sessionId
  {
  }

  /** The run after one node that updates the state: that node, then the run from its successor. */
  lemma {:induction false} RunFromStep(n: Node, st: State, ag: Agents, sem: Semantics, partial: State)
    requires RunNode(n, st, ag) == Update(partial)
    ensures var st' := Apply(sem, st, partial);
            RunFrom(n, st, ag, sem) == match Next(n, st')
              case End => Finished(st', [n])
              case To(m) => Prepend(n, RunFrom(m, st', ag, sem))
  {
  }

  /** `n` in front of the nodes a run visited. */
  function Prepend(n: Node, r: Run): (p: Run)
    ensures p.visited == [n] + r.visited
    ensures p.Finished? == r.Finished? && (p.Finished? ==> p.final == r.final)
  {
    match r
    case Finished(final, visited) => Finished(final, [n] + visited)
    case Failed(f, visited) => Failed(f, [n] + visited)
  }

  /** Putting a node in front of an answered run keeps it answered, and puts the node in front of its path. */
  lemma PrependAnswered(n: Node, r: Run, text: string, path: seq<Node>)
    requires Answered(r, text) && r.visited == path
    ensures Answered(Prepend(n, r), text) && Prepend(n, r).visited == [n] + path
  {
  }

  /** The node a known route leads to. */
  function NodeOf(rota: string): Node
    requires rota in VALID_ROUTES
  {
    if rota == "financeiro" then Financeiro else if rota == "agenda" then Agenda else Faq
  }

  /** After roteador has stored a known route, the conditional edge leads to that route's node. */
  lemma {:induction false} NextAfterRoute(st: State)
    requires !Truthy(st, Erro) && !Truthy(st, RespostaUsuario) && Rota in st && st[Rota] in VALID_ROUTES
    ensures Next(Roteador, st) == To(NodeOf(st[Rota]))
  {
    var d := DecideAfterRouter(st);
    assert d == st[Rota];
    if d == "financeiro" {
      assert ROUTER_EDGES[d] == To(Financeiro);
    } else if d == "agenda" {
      assert ROUTER_EDGES[d] == To(Agenda);
    } else {
      assert d == "faq";
      assert ROUTER_EDGES[d] == To(Faq);
    }
  }

  /** On a known route the turn is roteador followed by the run from that route's node. */
  lemma {:induction false} RouterPhase(pergunta: string, sessionId: string, ag: Agents, sem: Semantics)
    requires StartsWith(ag.router(pergunta), ROUTE_KEY)
    requires RouteOf(ag.router(pergunta)) in VALID_ROUTES
    ensures Invoke(pergunta, sessionId, ag, sem)
            == Prepend(Roteador, RunFrom(NodeOf(RouteOf(ag.router(pergunta))), Routed(pergunta, sessionId, ag, sem), ag, sem))
  {
    var reply := ag.router(pergunta);
    var p0 := map[Rota := RouteOf(reply), RoteadorText := reply, Input := pergunta, SessionId := sessionId];
    RouterStep(pergunta, sessionId, ag);
    RoutedState(pergunta, sessionId, ag, sem);
    NextAfterRoute(Routed(pergunta, sessionId, ag, sem));
    RunFromStep(Roteador, Start(pergunta, sessionId), ag, sem, p0);
  }

  /** faq answers with the FAQ chain's reply to the input, and the turn ends. */
  lemma {:induction false} FaqPhase(st: State, ag: Agents, sem: Semantics)
    requires Input in st && SessionId in st && !Truthy(st, Erro)
    ensures var r := RunFrom(Faq, st, ag, sem);
            Answered(r, ag.faq(st[Input])) && r.visited == [Faq]
  {
    var p1 := map[RespostaUsuario := ag.faq(st[Input]), SessionId := st[SessionId]];
    assert RunNode(Faq, st, ag) == Update(p1);
    RunFromStep(Faq, st, ag, sem, p1);
  }

  /** orquestrador answers with the orchestrator's reply to the specialist's output, and the turn ends. */
  lemma {:induction false} OrchestratorPhase(st: State, ag: Agents, sem: Semantics)
    requires SaidaEspecialista in st && SessionId in st && !Truthy(st, Erro)
    ensures var r := RunFrom(Orquestrador, st, ag, sem);
            Answered(r, ag.orchestrator(st[SaidaEspecialista])) && r.visited == [Orquestrador]
  {
    var p := map[RespostaUsuario := ag.orchestrator(st[SaidaEspecialista])];
    assert RunNode(Orquestrador, st, ag) == Update(p);
    RunFromStep(Orquestrador, st, ag, sem, p);
  }

  /** The agent behind a specialist node. */
  function AgentOf(n: Node, ag: Agents): string -> string {
    if n == Agenda then ag.agenda else ag.financeiro
  }

  /** financeiro or agenda passes the router text to its agent, then always goes on to orquestrador. */
  lemma {:induction false} SpecialistPhase(n: Node, st: State, ag: Agents, sem: Semantics)
    requires n == Financeiro || n == Agenda
    requires RoteadorText in st && SessionId in st && !Truthy(st, Erro)
    ensures var r := RunFrom(n, st, ag, sem);
            Answered(r, ag.orchestrator(AgentOf(n, ag)(st[RoteadorText]))) && r.visited == [n, Orquestrador]
  {
    var st' := Apply(sem, st, SpecialistUpdate(n, st, ag));
    SpecialistStep(n, st, ag, sem);
    OrchestratorPhase(st', ag, sem);
    PrependAnswered(n, RunFrom(Orquestrador, st', ag, sem), ag.orchestrator(st'[SaidaEspecialista]), [Orquestrador]);
  }

  /** What financeiro or agenda writes. */
  function SpecialistUpdate(n: Node, st: State, ag: Agents): State
    requires RoteadorText in st && SessionId in st
  {
    map[SaidaEspecialista := AgentOf(n, ag)(st[RoteadorText]), SessionId := st[SessionId]]
  }

  /** One specialist step: the agent's output is stored and the run goes on at orquestrador. */
  lemma {:induction false} SpecialistStep(n: Node, st: State, ag: Agents, sem: Semantics)
    requires n == Financeiro || n == Agenda
    requires RoteadorText in st && SessionId in st && !Truthy(st, Erro)
    ensures var st' := Apply(sem, st, SpecialistUpdate(n, st, ag));
            && RunFrom(n, st, ag, sem) == Prepend(n, RunFrom(Orquestrador, st', ag, sem))
            && SaidaEspecialista in st' && st'[SaidaEspecialista] == AgentOf(n, ag)(st[RoteadorText])
            && SessionId in st' && !Truthy(st', Erro)
  {
    var p := SpecialistUpdate(n, st, ag);
    assert RunNode(n, st, ag) == Update(p);
    RunFromStep(n, st, ag, sem, p);
    ApplyKeepsFalsy(sem, st, p, Erro);
  }

  /** A key the update does not write stays falsy, under either semantics. */
  lemma ApplyKeepsFalsy(sem: Semantics, st: State, partial: State, k: Key)
    requires k !in partial && !Truthy(st, k)
    ensures !Truthy(Apply(sem, st, partial), k)
  {
  }

  /** A turn on a known route answers as the run from that route's node does, one node later. */
  lemma {:induction false} TurnVia(pergunta: string, sessionId: string, ag: Agents, sem: Semantics,
                                   text: string, path: seq<Node>)
    requires StartsWith(ag.router(pergunta), ROUTE_KEY)
    requires RouteOf(ag.router(pergunta)) in VALID_ROUTES
    requires var r := RunFrom(NodeOf(RouteOf(ag.router(pergunta))), Routed(pergunta, sessionId, ag, sem), ag, sem);
             Answered(r, text) && r.visited == path
    ensures var r := Invoke(pergunta, sessionId, ag, sem);
            Answered(r, text) && r.visited == [Roteador] + path
  {
    RouterPhase(pergunta, sessionId, ag, sem);
    var n := NodeOf(RouteOf(ag.router(pergunta)));
    PrependAnswered(Roteador, RunFrom(n, Routed(pergunta, sessionId, ag, sem), ag, sem), text, path);
  }

  /** The faq route: the FAQ chain answers the user's own input. */
  lemma {:induction false} FaqTurn(pergunta: string, sessionId: string, ag: Agents, sem: Semantics)
    requires StartsWith(ag.router(pergunta), ROUTE_KEY)
    requires RouteOf(ag.router(pergunta)) == "faq"
    ensures var r := Invoke(pergunta, sessionId, ag, sem);
            Answered(r, ag.faq(pergunta)) && r.visited == [Roteador, Faq]
  {
    var st := Routed(pergunta, sessionId, ag, sem);
    RoutedState(pergunta, sessionId, ag, sem);
    FaqPhase(st, ag, sem);
    TurnVia(pergunta, sessionId, ag, sem, ag.faq(pergunta), [Faq]);
  }

  /** The financeiro and agenda routes: the agent gets the router text, the orchestrator the agent's output. */
  lemma {:induction false} SpecialistTurn(pergunta: string, sessionId: string, ag: Agents, sem: Semantics, n: Node)
    requires StartsWith(ag.router(pergunta), ROUTE_KEY)
    requires RouteOf(ag.router(pergunta)) in VALID_ROUTES
    requires n == NodeOf(RouteOf(ag.router(pergunta))) && n != Faq
    ensures var r := Invoke(pergunta, sessionId, ag, sem);
            Answered(r, ag.orchestrator(AgentOf(n, ag)(ag.router(pergunta)))) && r.visited == [Roteador, n, Orquestrador]
  {
    RouterPhase(pergunta, sessionId, ag, sem);
    RoutedState(pergunta, sessionId, ag, sem);
    SpecialistPhase(n, Routed(pergunta, sessionId, ag, sem), ag, sem);
  }

  /** What `executar_fluxo_assessor` returns for a run that `Answered`. */
  lemma ReplyOfAnswered(r: Run, text: string)
    requires Answered(r, text)
    ensures ReplyOf(r) == Answer(text)
  {
  }

  /** The reference answer when the reply does not start with `ROUTE=`. */
  lemma {:induction false} ExpectedDirect(pergunta: string, ag: Agents)
    requires !StartsWith(ag.router(pergunta), ROUTE_KEY)
    ensures ExpectedAnswer(pergunta, ag) == ag.router(pergunta)
    ensures ExpectedPath(pergunta, ag) == [Roteador]
  {
  }

  /** The reference answer on the faq route. */
  lemma {:induction false} ExpectedFaq(pergunta: string, ag: Agents)
    requires StartsWith(ag.router(pergunta), ROUTE_KEY) && RouteOf(ag.router(pergunta)) == "faq"
    ensures ExpectedAnswer(pergunta, ag) == ag.faq(pergunta)
    ensures ExpectedPath(pergunta, ag) == [Roteador, Faq]
  {
  }

  /** The reference answer on the financeiro and agenda routes. */
  lemma {:induction false} ExpectedSpecialist(pergunta: string, ag: Agents, n: Node)
    requires StartsWith(ag.router(pergunta), ROUTE_KEY)
    requires RouteOf(ag.router(pergunta)) in VALID_ROUTES
    requires n == NodeOf(RouteOf(ag.router(pergunta))) && n != Faq
    ensures ExpectedAnswer(pergunta, ag) == ag.orchestrator(AgentOf(n, ag)(ag.router(pergunta)))
    ensures ExpectedPath(pergunta, ag) == [Roteador, n, Orquestrador]
  {
  }

  /** The reference answer on an unknown route. */
  lemma {:induction false} ExpectedInvalid(pergunta: string, ag: Agents)
    requires StartsWith(ag.router(pergunta), ROUTE_KEY) && RouteOf(ag.router(pergunta)) !in VALID_ROUTES
    ensures ExpectedAnswer(pergunta, ag) == "Erro: " + InvalidRoute(RouteOf(ag.router(pergunta)))
    ensures ExpectedPath(pergunta, ag) == [Roteador]
  {
  }

  /** The answer on a reply without `ROUTE=`. */
  lemma {:induction false} DirectAnswer(pergunta: string, sessionId: string, ag: Agents, sem: Semantics)
    requires !StartsWith(ag.router(pergunta), ROUTE_KEY)
    ensures ReplyOf(Invoke(pergunta, sessionId, ag, sem)) == Answer(ExpectedAnswer(pergunta, ag))
    ensures Invoke(pergunta, sessionId, ag, sem).visited == ExpectedPath(pergunta, ag)
  {
    DirectTurn(pergunta, sessionId, ag, sem);
    ReplyOfAnswered(Invoke(pergunta, sessionId, ag, sem), ag.router(pergunta));
    ExpectedDirect(pergunta, ag);
  }

  /** The answer on an unknown route. */
  lemma {:induction false} InvalidAnswer(pergunta: string, sessionId: string, ag: Agents, sem: Semantics)
    requires StartsWith(ag.router(pergunta), ROUTE_KEY) && RouteOf(ag.router(pergunta)) !in VALID_ROUTES
    ensures ReplyOf(Invoke(pergunta, sessionId, ag, sem)) == Answer(ExpectedAnswer(pergunta, ag))
    ensures Invoke(pergunta, sessionId, ag, sem).visited == ExpectedPath(pergunta, ag)
  {
    InvalidRouteTurn(pergunta, sessionId, ag, sem);
    ExpectedInvalid(pergunta, ag);
  }

  /** The answer on the faq route. */
  lemma {:induction false} FaqAnswer(pergunta: string, sessionId: string, ag: Agents, sem: Semantics)
    requires StartsWith(ag.router(pergunta), ROUTE_KEY) && RouteOf(ag.router(pergunta)) == "faq"
    ensures ReplyOf(Invoke(pergunta, sessionId, ag, sem)) == Answer(ExpectedAnswer(pergunta, ag))
    ensures Invoke(pergunta, sessionId, ag, sem).visited == ExpectedPath(pergunta, ag)
  {
    FaqTurn(pergunta, sessionId, ag, sem);
    ReplyOfAnswered(Invoke(pergunta, sessionId, ag, sem), ag.faq(pergunta));
    ExpectedFaq(pergunta, ag);
  }

  /** The answer on the financeiro and agenda routes. */
  lemma {:induction false} SpecialistAnswer(pergunta: string, sessionId: string, ag: Agents, sem: Semantics, n: Node)
    requires StartsWith(ag.router(pergunta), ROUTE_KEY)
    requires RouteOf(ag.router(pergunta)) in VALID_ROUTES
    requires n == NodeOf(RouteOf(ag.router(pergunta))) && n != Faq
    ensures ReplyOf(Invoke(pergunta, sessionId, ag, sem)) == Answer(ExpectedAnswer(pergunta, ag))
    ensures Invoke(pergunta, sessionId, ag, sem).visited == ExpectedPath(pergunta, ag)
  {
    SpecialistTurn(pergunta, sessionId, ag, sem, n);
    ReplyOfAnswered(Invoke(pergunta, sessionId, ag, sem), ag.orchestrator(AgentOf(n, ag)(ag.router(pergunta))));
    ExpectedSpecialist(pergunta, ag, n);
  }

  /** A known route leads to faq exactly when it is `faq`. */
  lemma NodeOfFaq(rota: string)
    requires rota in VALID_ROUTES
    ensures NodeOf(rota) == Faq <==> rota == "faq"
  {
  }

  /**
   * Every turn's answer is the one the reply's cases predict, along the path they predict,
   * under either state semantics: no exception escapes to the caller.
   */
  lemma {:induction false} TurnCharacterised(pergunta: string, sessionId: string, ag: Agents, sem: Semantics)
    ensures ReplyOf(Invoke(pergunta, sessionId, ag, sem)) == Answer(ExpectedAnswer(pergunta, ag))
    ensures Invoke(pergunta, sessionId, ag, sem).visited == ExpectedPath(pergunta, ag)
  {
    var reply := ag.router(pergunta);
    if !StartsWith(reply, ROUTE_KEY) {
      DirectAnswer(pergunta, sessionId, ag, sem);
    } else if RouteOf(reply) !in VALID_ROUTES {
      InvalidAnswer(pergunta, sessionId, ag, sem);
    } else {
      var n := NodeOf(RouteOf(reply));
      NodeOfFaq(RouteOf(reply));
      if n == Faq {
        FaqAnswer(pergunta, sessionId, ag, sem);
      } else {
        SpecialistAnswer(pergunta, sessionId, ag, sem, n);
      }
    }
  }

  /** Merging and replacing the state give the same answer, along the same path, on every turn. */
  lemma SemanticsAgree(pergunta: string, sessionId: string, ag: Agents)
    ensures ReplyOf(Invoke(pergunta, sessionId, ag, Merge)) == ReplyOf(Invoke(pergunta, sessionId, ag, Replace))
    ensures Invoke(pergunta, sessionId, ag, Merge).visited == Invoke(pergunta, sessionId, ag, Replace).visited
  {
    TurnCharacterised(pergunta, sessionId, ag, Merge);
    TurnCharacterised(pergunta, sessionId, ag, Replace);
  }
}
