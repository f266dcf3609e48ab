/** The layer-slice engine seen from the distributed runtime.  Tensor contents are
    abstract; what is modelled exactly is the token timeline that guards every slice. */
module Engine {

  type Kv(0, ==, !new)
  type Hidden(0, ==, !new)
  type Logits(0, ==, !new)

  /** Layer 0 embeds the tokens itself, every later slice receives a hidden state. */
  datatype Input = FromTokens | FromHidden(hidden: Hidden)

  /** One node's slice.  Its KV effect does not depend on which output is asked for. */
  datatype SliceEngine = SliceEngine(
    emptyKv: Kv,
    stepKv: (Kv, seq<int>, nat, Input) -> Kv,
    hiddenOut: (Kv, seq<int>, nat, Input) -> Hidden,
    logitsOut: (Kv, seq<int>, nat, Input) -> Logits)

  /** A session of one node: its checkpoint tokens, whether the checkpoint is valid, its KV rows. */
  datatype EngineSession = EngineSession(tokens: seq<int>, live: bool, kv: Kv)

  /** What a reset reports.  A failing reset has already emptied the checkpoint. */
  datatype ResetOutcome = ResetWorks | ResetFails(kvLeft: Kv)

  /** What the engine reports for a span that passes the timeline check: success, a refusal
      before any tensor is touched, or a failure that invalidates the checkpoint. */
  datatype EvalOutcome = EvalWorks | EvalRefuses | EvalFails(kvLeft: Kv)

  function Reset(e: SliceEngine, s: EngineSession, outcome: ResetOutcome): EngineSession {
    EngineSession([], false, if outcome.ResetWorks? then e.emptyKv else outcome.kvLeft)
  }

  /** A valid checkpoint must end exactly at pos0; an invalid one only admits position 0. */
  predicate TimelineAdmits(s: EngineSession, pos0: nat) {
    if s.live then |s.tokens| == pos0 else pos0 == 0
  }

  predicate EvalSucceeds(s: EngineSession, pos0: nat, outcome: EvalOutcome) {
    TimelineAdmits(s, pos0) && outcome.EvalWorks?
  }

  function Extend(e: SliceEngine, s: EngineSession, tokens: seq<int>, pos0: nat, input: Input): EngineSession {
    EngineSession(s.tokens + tokens, true, e.stepKv(s.kv, tokens, pos0, input))
  }

  function Eval(e: SliceEngine, s: EngineSession, tokens: seq<int>, pos0: nat, input: Input,
                outcome: EvalOutcome): EngineSession {
    if !TimelineAdmits(s, pos0) || outcome.EvalRefuses? then s
    else if outcome.EvalFails? then EngineSession(s.tokens, false, outcome.kvLeft)
    else Extend(e, s, tokens, pos0, input)
  }
}
