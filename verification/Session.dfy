/** The registry of analysis results pinned to a catalog, its revision and the
    options (src/pyflow/application/session.py), characterised by its history. */
module Session {
  import opened Wrappers

  type Result = nat

  datatype Options = Options(
    cpaPathLength: nat, enableCaching: bool, dumpReports: bool, maskDumpErrors: bool, dumpStats: bool)

  const DEFAULT_OPTIONS := Options(3, true, false, false, false)

  const ANALYSIS_KEYS: map<string, string> := map[
    "ipa_refresh" := "ipa",
    "ipa_after_simplify" := "ipa",
    "cpa_path_sensitive" := "cpa",
    "cpa_after_simplify" := "cpa",
    "lifetime_refresh" := "lifetime",
    "lifetime_after_simplify" := "lifetime"]

  function AnalysisKey(name: string): string {
    if name in ANALYSIS_KEYS then ANALYSIS_KEYS[name] else name
  }

  /** Which names stand for which analysis. */
  lemma {:induction false} AliasesAre(name: string)
    ensures name == "ipa_refresh" || name == "ipa_after_simplify" ==> AnalysisKey(name) == "ipa"
    ensures name == "cpa_path_sensitive" || name == "cpa_after_simplify" ==> AnalysisKey(name) == "cpa"
    ensures name == "lifetime_refresh" || name == "lifetime_after_simplify" ==> AnalysisKey(name) == "lifetime"
    ensures AnalysisKey(name) != name ==>
              || name == "ipa_refresh" || name == "ipa_after_simplify" || name == "cpa_path_sensitive"
              || name == "cpa_after_simplify" || name == "lifetime_refresh" || name == "lifetime_after_simplify"
  {
    assert forall alias :: alias in ANALYSIS_KEYS ==> |alias| > 8;
    assert "ipa_refresh"[0] == 'i' && "cpa_path_sensitive"[0] == 'c' && "lifetime_refresh"[0] == 'l';
  }

  function Keys(names: seq<string>): set<string> {
    set n | n in names :: AnalysisKey(n)
  }

  /** A key is no alias: taking the key twice changes nothing. */
  lemma {:induction false} KeyOfKey(name: string)
    ensures AnalysisKey(AnalysisKey(name)) == AnalysisKey(name)
  {
    if name in ANALYSIS_KEYS {
      assert |AnalysisKey(name)| <= 8 && forall alias :: alias in ANALYSIS_KEYS ==> |alias| > 8;
    }
  }

  // ------------------------------------------------------------ the registry

  /** The catalog by identity, its revision, and the options of the session. */
  datatype Token = Token(ir: nat, revision: nat, options: Options)

  datatype Entry = Entry(token: Token, result: Result)

  datatype Registry = Registry(current: Token, entries: map<string, Entry>, generation: nat) {
    function Lookup(key: string): Option<Result> {
      if key in entries && entries[key].token == current then Some(entries[key].result) else None
    }

    /** `AnalysisResults.retain`: kept entries are stamped anew. */
    function Retain(keys: set<string>): Registry {
      Registry(current, map k | k in entries && k in keys :: Entry(current, entries[k].result), generation + 1)
    }

    function CurrentKeys(): set<string> {
      set k | k in entries && entries[k].token == current
    }
  }

  /** What happens to a session. The last two come from outside: passes that bump
      the revision or publish a new catalog. */
  datatype Event =
    | Record(name: string, result: Result)
    | Invalidate(names: seq<string>)
    | Configure(options: Options)
    | MarkChanged(preserved: seq<string>)
    | OutsideBump(amount: nat)
    | NewCatalog(revision: nat)

  function Step(s: Registry, e: Event): Registry {
    match e
    case Record(name, result) => s.(entries := s.entries[AnalysisKey(name) := Entry(s.current, result)])
    case Invalidate(names) => s.(entries := s.entries - Keys(names), generation := s.generation + 1)
    case Configure(options) =>
      if options == s.current.options then s else s.(current := s.current.(options := options)).Retain({})
    case MarkChanged(preserved) =>
      s.(current := s.current.(revision := s.current.revision + 1)).Retain(Keys(preserved) * s.CurrentKeys())
    case OutsideBump(amount) => s.(current := s.current.(revision := s.current.revision + amount + 1))
    case NewCatalog(revision) => s.(current := s.current.(ir := s.current.ir + 1, revision := revision))
  }

  function Start(options: Options): Registry {
    Registry(Token(0, 0, options), map[], 0)
  }

  function Run(options: Options, history: seq<Event>): Registry {
    if history == [] then Start(options)
    else Step(Run(options, history[..|history| - 1]), history[|history| - 1])
  }

  function OptionsAfter(options: Options, history: seq<Event>): Options {
    if history == [] then options
    else
      var last := history[|history| - 1];
      if last.Configure? then last.options else OptionsAfter(options, history[..|history| - 1])
  }

  // --------------------------------------------------------- what a lookup says

  /** No entry is stamped later than now, and none under other options. */
  ghost predicate Valid(s: Registry) {
    forall k :: k in s.entries ==>
      var t := s.entries[k].token;
      t.options == s.current.options
        && (t.ir < s.current.ir || (t.ir == s.current.ir && t.revision <= s.current.revision))
  }

  /** An event that leaves the result of a key in place. */
  predicate Spares(e: Event, key: string, options: Options) {
    match e
    case Record(name, _) => AnalysisKey(name) != key
    case Invalidate(names) => key !in Keys(names)
    case Configure(o) => o == options
    case MarkChanged(preserved) => key in Keys(preserved)
    case OutsideBump(_) => false
    case NewCatalog(_) => false
  }

  lemma {:induction false} StepLookup(s: Registry, e: Event, key: string)
    requires Valid(s)
    ensures Valid(Step(s, e))
    ensures Step(s, e).Lookup(key)
         == if e.Record? && AnalysisKey(e.name) == key then Some(e.result)
            else if Spares(e, key, s.current.options) then s.Lookup(key)
            else None
  {
    assert key in s.CurrentKeys() <==> s.Lookup(key).Some?;
  }

  /** The i-th event recorded r under the key and everything since spared it. */
  ghost predicate RecordedAndSpared(options: Options, history: seq<Event>, i: nat, key: string, r: Result) {
    && i < |history| && history[i].Record? && AnalysisKey(history[i].name) == key && history[i].result == r
    && forall j :: i < j < |history| ==> Spares(history[j], key, OptionsAfter(options, history[..j]))
  }

  lemma {:induction false} RunOptions(options: Options, history: seq<Event>)
    ensures Valid(Run(options, history)) && Run(options, history).current.options == OptionsAfter(options, history)
  {
    if history != [] {
      var before := history[..|history| - 1];
      RunOptions(options, before);
      StepLookup(Run(options, before), history[|history| - 1], "");
    }
  }

  lemma {:induction false} SparedBefore(options: Options, history: seq<Event>, i: nat, key: string, r: Result)
    requires history != [] && i < |history| - 1
    ensures var before := history[..|history| - 1];
            RecordedAndSpared(options, history, i, key, r)
            <==> RecordedAndSpared(options, before, i, key, r)
                 && Spares(history[|history| - 1], key, OptionsAfter(options, before))
  {
    var before := history[..|history| - 1];
    forall j | i < j < |before|
      ensures before[j] == history[j] && before[..j] == history[..j]
    {
    }
  }

  /** In every history a lookup gives r exactly when r is the last result recorded
      under that key and since then the key was not invalidated, the options did
      not change, every mark-changed preserved it and nothing happened outside. */
  lemma {:induction false} LookupIsLastSparedRecord(options: Options, history: seq<Event>, key: string, r: Result)
    ensures Run(options, history).Lookup(key) == Some(r) <==> exists i :: RecordedAndSpared(options, history, i, key, r)
    decreases |history|
  {
    if history != [] {
      var n := |history| - 1;
      var before, last := history[..n], history[n];
      RunOptions(options, before);
      StepLookup(Run(options, before), last, key);
      LookupIsLastSparedRecord(options, before, key, r);
      forall i: nat | i < n
        ensures RecordedAndSpared(options, history, i, key, r)
             <==> RecordedAndSpared(options, before, i, key, r) && Spares(last, key, OptionsAfter(options, before))
      {
        SparedBefore(options, history, i, key, r);
      }
      assert RecordedAndSpared(options, history, n, key, r)
        <==> last.Record? && AnalysisKey(last.name) == key && last.result == r;
    }
  }

  /** A result no lookup sees any more is not brought back by any later event but
      recording under its key again. */
  lemma {:induction false} NothingIsRevived(options: Options, history: seq<Event>, later: seq<Event>, key: string)
    requires Run(options, history).Lookup(key).None?
    requires forall e :: e in later && e.Record? ==> AnalysisKey(e.name) != key
    ensures Run(options, history + later).Lookup(key).None?
    decreases |later|
  {
    if later == [] {
      assert history + later == history;
    } else {
      var n := |later| - 1;
      NothingIsRevived(options, history, later[..n], key);
      assert (history + later)[..|history + later| - 1] == history + later[..n];
      RunOptions(options, history + later[..n]);
      StepLookup(Run(options, history + later[..n]), later[n], key);
    }
  }

  // ------------------------------------------------------------- the session

  datatype PassManager = PassManager(caching: bool)

  /** The session together with the results object it owns; the program's catalog
      enters by its identity and revision. */
  class AnalysisSession {
    var ir: nat
    var revision: nat
    var options: Options
    var entries: map<string, Entry>
    var generation: nat
    var manager: Option<PassManager>

    function State(): Registry
      reads this
    {
      Registry(Token(ir, revision, options), entries, generation)
    }

    /** A pass manager in use was built for the current options. */
    ghost predicate Consistent()
      reads this
    {
      manager.Some? ==> manager.value.caching == options.enableCaching
    }

    constructor (options: Options)
      ensures State() == Start(options) && Consistent()
    {
      ir, revision, this.options, entries, generation, manager := 0, 0, options, map[], 0, None;
    }

    method GetPassManager() returns (r: PassManager)
      requires Consistent()
      modifies this`manager
      ensures Consistent() && manager == Some(r) && r.caching == options.enableCaching
      ensures old(manager).Some? ==> manager == old(manager)
    {
      if manager.None? {
        manager := Some(PassManager(options.enableCaching));
      }
      r := manager.value;
    }

    method Retain(keys: set<string>)
      modifies this`entries, this`generation
      ensures State() == old(State()).Retain(keys)
    {
      var token := Token(ir, revision, options);
      entries := map k | k in entries && k in keys :: Entry(token, entries[k].result);
      generation := generation + 1;
    }

    method SetOptions(options: Options)
      requires Consistent()
      modifies this
      ensures Consistent() && State() == Step(old(State()), Configure(options))
      ensures manager == if options == old(this.options) then old(manager) else None
    {
      if options == this.options {
        return;
      }
      this.options := options;
      Retain({});
      manager := None;
    }

    method RecordResult(name: string, result: Result)
      modifies this`entries
      ensures State() == Step(old(State()), Record(name, result))
    {
      entries := entries[AnalysisKey(name) := Entry(Token(ir, revision, options), result)];
    }

    /** Results show through any alias of the key they were recorded under. */
    method GetResult(name: string) returns (r: Option<Result>)
      ensures r == State().Lookup(AnalysisKey(name))
    {
      var key := AnalysisKey(name);
      if key !in entries || entries[key].token != Token(ir, revision, options) {
        return None;
      }
      r := Some(entries[key].result);
    }

    method InvalidateResults(names: seq<string>)
      modifies this`entries, this`generation
      ensures State() == Step(old(State()), Invalidate(names))
    {
      ghost var before, gone := entries, {};
      for i := 0 to |names|
        invariant gone == Keys(names[..i]) && entries == before - gone && generation == old(generation)
      {
        KeysOneMore(names, i);
        entries := entries - {AnalysisKey(names[i])};
        gone := gone + {AnalysisKey(names[i])};
      }
      assert names[..|names|] == names;
      generation := generation + 1;
    }

    method MarkAsChanged(preserved: seq<string>)
      modifies this`revision, this`entries, this`generation
      ensures State() == Step(old(State()), MarkChanged(preserved))
    {
      var token := Token(ir, revision, options);
      var currentKeys := set k | k in entries && entries[k].token == token;
      revision := revision + 1;
      Retain(Keys(preserved) * currentKeys);
    }
  }

  lemma {:induction false} KeysOneMore(names: seq<string>, i: nat)
    requires i < |names|
    ensures Keys(names[..i + 1]) == Keys(names[..i]) + {AnalysisKey(names[i])}
  {
    assert names[..i + 1] == names[..i] + [names[i]];
    assert names[i] in names[..i + 1];
    forall k | k in Keys(names[..i])
      ensures k in Keys(names[..i + 1])
    {
      var n :| n in names[..i] && AnalysisKey(n) == k;
      assert n in names[..i + 1];
    }
  }
}
