/** Hot reload: build everything from the new configuration, then swap; or change nothing. */
module Reload {
  import opened Prelude

  /** A parsed configuration, and a pipeline built for one listener; both are opaque to the reload. */
  datatype Config = Config(text: string)

  datatype Pipeline = Pipeline(listener: string, builtFrom: Config)

  /** Validation and pipeline construction: the pipelines by listener name, or failure. */
  type Builder = Config -> Option<map<string, Pipeline>>

  /** Live slots, and the health-check tokens: how many were created, which were cancelled, which is in the mutex. */
  datatype Live = Live(
    slots: map<string, Pipeline>,
    created: nat,
    cancelled: set<nat>,
    token: nat,
    current: Config)

  function Swapped(slots: map<string, Pipeline>, built: map<string, Pipeline>): map<string, Pipeline> {
    map name | name in slots :: if name in built then built[name] else slots[name]
  }

  /** One reload attempt; `None` is a file that could not be read or parsed. */
  function Attempt(build: Builder, s: Live, file: Option<Config>): Live {
    if file.None? || build(file.value).None? then s
    else Live(Swapped(s.slots, build(file.value).value), s.created + 1, s.cancelled + {s.token}, s.created, file.value)
  }

  function Attempts(build: Builder, s: Live, files: seq<Option<Config>>): Live {
    if files == [] then s else Attempt(build, Attempts(build, s, files[..|files| - 1]), files[|files| - 1])
  }

  predicate Accepted(build: Builder, file: Option<Config>) { file.Some? && build(file.value).Some? }

  /** The pipeline of the latest accepted configuration that names the listener, or the initial one. */
  function LatestPipeline(build: Builder, files: seq<Option<Config>>, name: string, initial: Pipeline): Pipeline {
    if files == [] then initial
    else
      var last := files[|files| - 1];
      if Accepted(build, last) && name in build(last.value).value then build(last.value).value[name]
      else LatestPipeline(build, files[..|files| - 1], name, initial)
  }

  function LatestConfig(build: Builder, files: seq<Option<Config>>, initial: Config): Config {
    if files == [] then initial
    else if Accepted(build, files[|files| - 1]) then files[|files| - 1].value
    else LatestConfig(build, files[..|files| - 1], initial)
  }

  /** How many reloads succeeded. */
  function Successes(build: Builder, files: seq<Option<Config>>): nat {
    if files == [] then 0
    else Successes(build, files[..|files| - 1]) + if Accepted(build, files[|files| - 1]) then 1 else 0
  }

  /** Of all tokens ever created exactly one is not cancelled, the one in the mutex. */
  predicate OneToken(s: Live) {
    && s.token < s.created
    && (forall t | t in s.cancelled :: t < s.created)
    && forall t: nat | t < s.created :: t in s.cancelled <==> t != s.token
  }

  lemma AttemptKeepsOneToken(build: Builder, s: Live, file: Option<Config>)
    requires OneToken(s)
    ensures OneToken(Attempt(build, s, file))
  {
    var n := Attempt(build, s, file);
    forall t: nat | t < n.created ensures t in n.cancelled <==> t != n.token {
      if t < s.created { assert t in s.cancelled <==> t != s.token; }
    }
  }

  /**
   * Over whole runs: the listeners are those of the start, each slot holds the pipeline of the
   * latest accepted configuration naming it, the current configuration is the latest accepted one,
   * every success made a health-check token, and exactly one of them is live, the newest.
   */
  lemma {:induction false} ReloadRuns(build: Builder, s: Live, files: seq<Option<Config>>)
    requires OneToken(s)
    ensures var r := Attempts(build, s, files);
            && r.slots.Keys == s.slots.Keys
            && (forall name | name in s.slots :: r.slots[name] == LatestPipeline(build, files, name, s.slots[name]))
            && r.current == LatestConfig(build, files, s.current)
            && OneToken(r)
            && r.created == s.created + Successes(build, files)
            && r.token == (if Successes(build, files) == 0 then s.token else r.created - 1)
  {
    if files != [] {
      var init, last := files[..|files| - 1], files[|files| - 1];
      ReloadRuns(build, s, init);
      AttemptKeepsOneToken(build, Attempts(build, s, init), last);
    }
  }

  // ---------------------------------------------------------------------------
  // The object form
  // ---------------------------------------------------------------------------

  class Server {
    const build: Builder
    var slots: map<string, Pipeline>
    var created: nat
    var cancelled: set<nat>
    var token: nat
    var currentConfig: Config

    constructor (build: Builder, slots: map<string, Pipeline>, config: Config)
      ensures this.build == build
      ensures State() == Live(slots, 1, {}, 0, config) && OneToken(State())
    {
      this.build := build;
      this.slots, currentConfig := slots, config;
      created, cancelled, token := 1, {}, 0;
    }

    function State(): Live
      reads this
    {
      Live(slots, created, cancelled, token, currentConfig)
    }

    /** Put a new token in the mutex, then cancel the old one. */
    method RespawnHealthChecks()
      modifies this`created, this`cancelled, this`token
      ensures created == old(created) + 1 && token == old(created)
      ensures cancelled == old(cancelled) + {old(token)}
    {
      var oldToken := token;
      token := created;
      created := created + 1;
      cancelled := cancelled + {oldToken};
    }

    /** Swap slot by slot; names without a live slot are skipped, they need a restart. */
    method ReloadPipelines(newConfig: Config) returns (ok: bool, swapped: set<string>, skipped: set<string>)
      modifies this`slots, this`created, this`cancelled, this`token
      ensures ok <==> build(newConfig).Some?
      ensures ok ==> State() == Attempt(build, old(State()), Some(newConfig)).(current := currentConfig)
      ensures ok ==> swapped + skipped == build(newConfig).value.Keys && swapped <= slots.Keys && skipped !! slots.Keys
      ensures !ok ==> State() == old(State())
    {
      swapped, skipped := {}, {};
      var newPipelines := build(newConfig);
      if newPipelines.None? {
        return false, swapped, skipped;
      }
      var names := newPipelines.value.Keys;
      while names != {}
        modifies this`slots
        invariant names <= newPipelines.value.Keys
        invariant swapped + skipped == newPipelines.value.Keys - names
        invariant swapped <= slots.Keys && skipped !! slots.Keys
        invariant slots.Keys == old(slots.Keys)
        invariant forall name | name in slots ::
                    slots[name] == if name in newPipelines.value && name !in names
                                   then newPipelines.value[name] else old(slots)[name]
        decreases names
      {
        var name :| name in names;
        names := names - {name};
        if name in slots {
          slots := slots[name := newPipelines.value[name]];
          swapped := swapped + {name};
        } else {
          skipped := skipped + {name};
        }
      }
      assert slots == Swapped(old(slots), newPipelines.value);
      RespawnHealthChecks();
      ok := true;
    }

    /** Read, parse and try to reload; on any failure nothing changes. */
    method HandleReload(file: Option<Config>) returns (ok: bool)
      modifies this
      ensures State() == Attempt(build, old(State()), file)
      ensures ok <==> Accepted(build, file)
    {
      if file.None? {
        return false;
      }
      var swapped, skipped;
      ok, swapped, skipped := ReloadPipelines(file.value);
      if ok {
        currentConfig := file.value;
      }
    }
  }
}
