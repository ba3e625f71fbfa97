/**
 * A matched POST whose complete body may be read before the filter's own request hook has run:
 * the body is put aside and handled once the hook runs.
 */
module BodyDeferral {
  import opened Prelude

  /** Per-request state; absent until a hook first needs it. */
  datatype RequestState = RequestState(requestFiltersRan: bool, deferredBody: Option<Bytes>)

  const DEFAULT_STATE := RequestState(false, None)

  datatype Hook = OnRequest | OnBody(body: Option<Bytes>, endOfStream: bool)

  /** `Answer(Some(b))`: the route's handler was called with body `b`; `Answer(None)`: no store, a 500. */
  datatype Action = Continue | Release | Answer(handled: Option<Bytes>)

  /** Whether the pipeline gave the filter an id to keep state under, and whether its store opens. */
  datatype Setting = Setting(hasFilterId: bool, storeAvailable: bool)

  datatype Stepped = Stepped(state: Option<RequestState>, action: Action)

  function HandleWith(g: Setting, body: Bytes): Action { Answer(if g.storeAvailable then Some(body) else None) }

  function RunHook(g: Setting, s: Option<RequestState>, h: Hook): Stepped {
    match h
    case OnRequest =>
      if !g.hasFilterId then Stepped(s, Continue)
      else
        var deferred := s.GetOr(DEFAULT_STATE).deferredBody;
        Stepped(Some(RequestState(true, None)),
                if deferred.Some? then HandleWith(g, deferred.value) else Continue)
    case OnBody(body, endOfStream) =>
      if !endOfStream then Stepped(s, Continue)
      else if g.hasFilterId && !s.GetOr(DEFAULT_STATE).requestFiltersRan then
        Stepped(Some(s.GetOr(DEFAULT_STATE).(deferredBody := Some(body.GetOr([])))), Release)
      else Stepped(s, HandleWith(g, body.GetOr([])))
  }

  /** The state once the hooks have been called, in this order. */
  function StateAfter(g: Setting, hooks: seq<Hook>): Option<RequestState> {
    if hooks == [] then None
    else RunHook(g, StateAfter(g, hooks[..|hooks| - 1]), hooks[|hooks| - 1]).state
  }

  /** What the hook at place `i` does, whatever the hooks before it did. */
  function ActionAt(g: Setting, hooks: seq<Hook>, i: nat): Action
    requires i < |hooks|
  {
    RunHook(g, StateAfter(g, hooks[..i]), hooks[i]).action
  }

  // ---------------------------------------------------------------------------
  // Reference
  // ---------------------------------------------------------------------------

  predicate IsFinal(h: Hook) { h.OnBody? && h.endOfStream }

  /** The last complete body among the hooks. */
  function LastFinal(hooks: seq<Hook>): Option<Bytes> {
    if hooks == [] then None
    else
      var last := hooks[|hooks| - 1];
      if IsFinal(last) then Some(last.body.GetOr([])) else LastFinal(hooks[..|hooks| - 1])
  }

  /**
   * The first request hook handles the last complete body before it; a complete body after a
   * request hook is handled at once, and one before it is put aside.
   */
  function ExpectedAt(g: Setting, hooks: seq<Hook>, i: nat): Action
    requires i < |hooks|
  {
    var before := hooks[..i];
    match hooks[i]
    case OnRequest =>
      if OnRequest in before || LastFinal(before).None? then Continue
      else if g.storeAvailable then Answer(LastFinal(before))
      else Answer(None)
    case OnBody(body, endOfStream) =>
      if !endOfStream then Continue
      else if OnRequest !in before then Release
      else if g.storeAvailable then Answer(Some(body.GetOr([])))
      else Answer(None)
  }

  lemma {:induction false} StateIsHistory(g: Setting, hooks: seq<Hook>)
    requires g.hasFilterId
    ensures StateAfter(g, hooks).GetOr(DEFAULT_STATE) ==
            if OnRequest in hooks then RequestState(true, None) else RequestState(false, LastFinal(hooks))
  {
    if hooks != [] {
      var init, last := hooks[..|hooks| - 1], hooks[|hooks| - 1];
      StateIsHistory(g, init);
      assert hooks == init + [last];
    }
  }

  /** With a filter id, every hook in every sequence of hook calls does what the reference says. */
  lemma HooksActAsExpected(g: Setting, hooks: seq<Hook>, i: nat)
    requires g.hasFilterId && i < |hooks|
    ensures ActionAt(g, hooks, i) == ExpectedAt(g, hooks, i)
  {
    StateIsHistory(g, hooks[..i]);
  }

  lemma {:induction false} OnlyFinal(hooks: seq<Hook>, b: nat)
    requires b < |hooks| && IsFinal(hooks[b]) && forall i | 0 <= i < |hooks| && i != b :: !IsFinal(hooks[i])
    ensures LastFinal(hooks) == Some(hooks[b].body.GetOr([]))
  {
    if b < |hooks| - 1 { OnlyFinal(hooks[..|hooks| - 1], b); }
  }

  lemma {:induction false} NoFinal(hooks: seq<Hook>)
    requires forall i | 0 <= i < |hooks| :: !IsFinal(hooks[i])
    ensures LastFinal(hooks) == None
  {
    if hooks != [] { NoFinal(hooks[..|hooks| - 1]); }
  }

  /**
   * Exactly once: with one complete body among the hooks, before or after the first request hook,
   * one hook and no other answers: the later of the two, with that body.
   */
  lemma ExactlyOnce(g: Setting, hooks: seq<Hook>, r: nat, b: nat)
    requires g.hasFilterId
    requires r < |hooks| && hooks[r] == OnRequest && OnRequest !in hooks[..r]
    requires b < |hooks| && IsFinal(hooks[b]) && forall i | 0 <= i < |hooks| && i != b :: !IsFinal(hooks[i])
    ensures var at := if b < r then r else b;
            && (if g.storeAvailable then ActionAt(g, hooks, at) == Answer(Some(hooks[b].body.GetOr([])))
                else ActionAt(g, hooks, at) == Answer(None))
            && forall i | 0 <= i < |hooks| && i != at :: !ActionAt(g, hooks, i).Answer?
  {
    var at := if b < r then r else b;
    forall i | 0 <= i < |hooks|
      ensures if i != at then !ActionAt(g, hooks, i).Answer?
              else if g.storeAvailable then ActionAt(g, hooks, i) == Answer(Some(hooks[b].body.GetOr([])))
              else ActionAt(g, hooks, i) == Answer(None)
    {
      HooksActAsExpected(g, hooks, i);
      var before := hooks[..i];
      if i <= b { NoFinal(before); } else { OnlyFinal(before, b); }
      if r < i {
        assert before[r] == OnRequest;
      } else {
        assert OnRequest !in before by { assert before == hooks[..r][..i]; }
      }
    }
  }

  /** Nothing is handled before a request hook has run, and nothing twice without a second body. */
  lemma AnswersAreEarned(g: Setting, hooks: seq<Hook>, i: nat)
    requires g.hasFilterId && i < |hooks| && ActionAt(g, hooks, i).Answer?
    ensures OnRequest in hooks[..i + 1]
    ensures exists b :: 0 <= b <= i && IsFinal(hooks[b]) && (b == i || OnRequest !in hooks[..i])
                        && ActionAt(g, hooks, i) ==
                           if g.storeAvailable then Answer(Some(hooks[b].body.GetOr([]))) else Answer(None)
  {
    HooksActAsExpected(g, hooks, i);
    assert hooks[..i + 1] == hooks[..i] + [hooks[i]];
    if hooks[i].OnRequest? { LastFinalIsOne(hooks[..i]); }
  }

  lemma {:induction false} LastFinalIsOne(hooks: seq<Hook>)
    requires LastFinal(hooks).Some?
    ensures exists b :: 0 <= b < |hooks| && IsFinal(hooks[b]) && LastFinal(hooks).value == hooks[b].body.GetOr([])
  {
    if !IsFinal(hooks[|hooks| - 1]) { LastFinalIsOne(hooks[..|hooks| - 1]); }
  }

  /** Without a filter id nothing can be put aside: every complete body is handled at once. */
  lemma WithoutIdBodyIsHandledEarly(g: Setting, hooks: seq<Hook>, i: nat)
    requires !g.hasFilterId && i < |hooks|
    ensures ActionAt(g, hooks, i) ==
            if !IsFinal(hooks[i]) then Continue
            else if g.storeAvailable then Answer(Some(hooks[i].body.GetOr([])))
            else Answer(None)
  {
  }

  // ---------------------------------------------------------------------------
  // The object form
  // ---------------------------------------------------------------------------

  class ConversationsFilter {
    const setting: Setting
    var state: Option<RequestState>

    constructor (setting: Setting)
      ensures this.setting == setting && state == None
    {
      this.setting := setting;
      state := None;
    }

    /** Mark the request phase complete and take any body captured earlier. */
    method MarkRequestFiltersRan() returns (deferred: Option<Bytes>)
      modifies this
      ensures setting.hasFilterId ==>
                deferred == old(state).GetOr(DEFAULT_STATE).deferredBody && state == Some(RequestState(true, None))
      ensures !setting.hasFilterId ==> deferred == None && state == old(state)
    {
      if !setting.hasFilterId {
        return None;
      }
      var s := if state.Some? then state.value else DEFAULT_STATE;
      deferred := s.deferredBody;
      state := Some(RequestState(true, None));
    }

    method DeferBody(body: Bytes)
      modifies this
      ensures state == Some(old(state).GetOr(DEFAULT_STATE).(deferredBody := Some(body)))
    {
      var s := if state.Some? then state.value else DEFAULT_STATE;
      state := Some(RequestState(s.requestFiltersRan, Some(body)));
    }

    method Call(h: Hook) returns (action: Action)
      modifies this
      ensures Stepped(state, action) == RunHook(setting, old(state), h)
    {
      match h {
        case OnRequest =>
          var deferred := MarkRequestFiltersRan();
          if deferred.None? {
            return Continue;
          }
          return Answer(if setting.storeAvailable then deferred else None);
        case OnBody(body, endOfStream) =>
          if !endOfStream {
            return Continue;
          }
          var bytes := if body.Some? then body.value else [];
          var ran := !setting.hasFilterId || (state.Some? && state.value.requestFiltersRan);
          if !ran {
            DeferBody(bytes);
            return Release;
          }
          return Answer(if setting.storeAvailable then Some(bytes) else None);
      }
    }
  }
}
