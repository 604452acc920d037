/** The vector-index retriever: a process-wide single instance of
    `LlamaRetriever` whose index is loaded from a persisted directory.

    Construction in Python is `__new__` followed by `__init__`. `__new__`
    creates the one instance the first time and hands it back on every later
    construction; `__init__` then runs again on that shared instance every
    time: it checks that the directory exists and reloads the index. So the
    instance is set before `__init__` can fail, a failure leaves the previous
    index in place, and the last construction that succeeds decides which
    index the instance holds.

    Whether a path exists and what loading it yields are oracles (`pathExists`,
    `load`), given afresh to every construction since the disk changes between
    them; `load` returning `None` stands for `load_index_from_storage`
    raising. The query engine is the oracle `engine`. */
module Retriever {
  import opened Wrappers
  import PyStr

  const INDEX_DIR := "data/index"

  /** Why `__init__` raised: the directory is missing (`FileNotFoundError`), or
      the index in it could not be loaded. */
  datatype InitError = FileNotFound(path: string) | LoadFailed(path: string)

  /** `query` on an instance whose `__init__` never succeeded: `self.index` was
      never assigned, so Python raises `AttributeError`. */
  datatype QueryError = NoIndex

  /** `index_path or str(INDEX_DIR)`: the directory `__init__` looks at. */
  function EffectivePath(indexPath: Option<string>): (p: string)
    ensures indexPath.Some? && indexPath.value != "" ==> p == indexPath.value
    ensures indexPath.None? || indexPath.value == "" ==> p == INDEX_DIR
    ensures p != ""
  {
    PyStr.OrElse(indexPath, INDEX_DIR)
  }

  /** Whether `__init__(index_path)` returns normally. */
  predicate Succeeds<Index>(indexPath: Option<string>, pathExists: string -> bool, load: string -> Option<Index>) {
    var p := EffectivePath(indexPath);
    pathExists(p) && load(p).Some?
  }

  /** `__init__(index_path)` on an instance whose index is `index`: the index
      afterwards, and whether it raised. The existence check comes first; on
      either failure the index is left as it was. */
  function InitOutcome<Index>(index: Option<Index>, indexPath: Option<string>,
                              pathExists: string -> bool, load: string -> Option<Index>)
    : (r: (Option<Index>, Result<(), InitError>))
    ensures r.1.Ok? <==> Succeeds(indexPath, pathExists, load)
    ensures r.1.Ok? ==> r.0 == load(EffectivePath(indexPath)) && r.0.Some?
    ensures r.1.Err? ==> r.0 == index
    ensures !pathExists(EffectivePath(indexPath)) ==> r.1 == Err(FileNotFound(EffectivePath(indexPath)))
  {
    var p := EffectivePath(indexPath);
    if !pathExists(p) then (index, Err(FileNotFound(p)))
    else match load(p)
      case None => (index, Err(LoadFailed(p)))
      case Some(_) => (load(p), Ok(()))
  }

  /** One construction `LlamaRetriever(index_path)` together with the state of
      the disk when it runs: which paths exist and what loading each yields.
      Each construction has its own, since the index directory may be built
      or rebuilt between two of them. */
  datatype Construction<Index> = Construction(indexPath: Option<string>,
                                              pathExists: string -> bool, load: string -> Option<Index>)

  /** Whether construction `c` gets through `__init__`. */
  predicate Completes<Index>(c: Construction<Index>) {
    Succeeds(c.indexPath, c.pathExists, c.load)
  }

  /** The index construction `c` installs when it completes. */
  function Loaded<Index>(c: Construction<Index>): Option<Index> {
    c.load(EffectivePath(c.indexPath))
  }

  /** The index of the shared instance after the constructions `calls`, in
      order, starting from `index`. */
  function Replay<Index>(index: Option<Index>, calls: seq<Construction<Index>>): Option<Index>
    decreases |calls|
  {
    if calls == [] then index
    else
      var c := calls[|calls| - 1];
      InitOutcome(Replay(index, calls[..|calls| - 1]), c.indexPath, c.pathExists, c.load).0
  }

  /** Constructions that all fail leave the index as it was. */
  lemma {:induction false} FailuresKeepIndex<Index>(index: Option<Index>, calls: seq<Construction<Index>>)
    requires forall k :: 0 <= k < |calls| ==> !Completes(calls[k])
    ensures Replay(index, calls) == index
    decreases |calls|
  {
    if calls != [] {
      var init := calls[..|calls| - 1];
      forall k | 0 <= k < |init| ensures !Completes(init[k]) {
        assert init[k] == calls[k];
      }
      FailuresKeepIndex(index, init);
    }
  }

  /** The last successful construction wins: after any series of
      constructions the instance holds the index loaded by the last one that
      succeeded, whatever failed before or after it. */
  lemma {:induction false} LastSuccessWins<Index>(index: Option<Index>, calls: seq<Construction<Index>>, k: nat)
    requires k < |calls| && Completes(calls[k])
    requires forall j :: k < j < |calls| ==> !Completes(calls[j])
    ensures Replay(index, calls) == Loaded(calls[k])
    decreases |calls|
  {
    var init := calls[..|calls| - 1];
    if k < |calls| - 1 {
      assert init[k] == calls[k];
      forall j | k < j < |init| ensures !Completes(init[j]) {
        assert init[j] == calls[j];
      }
      LastSuccessWins(index, init, k);
    }
  }

  /** A failed construction is not permanent: after any history, including
      earlier failures on the very same directory, one that succeeds installs
      its own index. */
  lemma {:induction false} FailureIsNotPermanent<Index>(index: Option<Index>, calls: seq<Construction<Index>>,
                                                       last: Construction<Index>)
    requires Completes(last)
    ensures Replay(index, calls + [last]) == Loaded(last)
    ensures Replay(index, calls + [last]).Some?
  {
    assert (calls + [last])[..|calls|] == calls;
  }

  /** The lifecycle behind a search before the first reindex: a construction
      on a directory that does not exist yet raises `FileNotFoundError` and
      leaves the index as it was; once the index has been persisted there, a
      construction on the same path succeeds and installs it. */
  lemma RetryAfterIndexBuilt<Index>(index: Option<Index>, before: Construction<Index>, after: Construction<Index>)
    requires before.indexPath == after.indexPath
    requires !before.pathExists(EffectivePath(before.indexPath)) && Completes(after)
    ensures InitOutcome(index, before.indexPath, before.pathExists, before.load).1 ==
      Err(FileNotFound(EffectivePath(before.indexPath)))
    ensures Replay(index, [before]) == index
    ensures Replay(index, [before, after]) == Loaded(after) && Loaded(after).Some?
  {
    assert [before][..0] == [];
    assert [before, after][..1] == [before];
  }

  /** Constructing again with the same path while the disk is unchanged
      reloads the same index: repeated construction is idempotent on the
      instance's index. */
  lemma {:induction false} ReconstructIdempotent<Index>(index: Option<Index>, calls: seq<Construction<Index>>,
                                                       c: Construction<Index>)
    ensures Replay(index, calls + [c, c]) == Replay(index, calls + [c])
  {
    var once := calls + [c];
    var twice := calls + [c, c];
    assert twice[..|twice| - 1] == once;
    assert once[..|once| - 1] == calls;
  }

  class LlamaRetriever<Index> {
    /** `self.index`; `None` while no `__init__` has succeeded on this object. */
    var index: Option<Index>

    /** `object.__new__`: a bare instance without an index. */
    constructor ()
      ensures index == None
    {
      index := None;
    }

    /** `__init__(index_path)`: check the directory, then load the index from
        it, leaving the index untouched when either step fails. */
    method Init(indexPath: Option<string>, pathExists: string -> bool, load: string -> Option<Index>)
      returns (r: Result<(), InitError>)
      modifies this
      ensures (index, r) == InitOutcome(old(index), indexPath, pathExists, load)
    {
      var path := PyStr.OrElse(indexPath, INDEX_DIR);
      if !pathExists(path) {
        return Err(FileNotFound(path));
      }
      var loaded := load(path);
      if loaded.None? {
        return Err(LoadFailed(path));
      }
      index := loaded;
      r := Ok(());
    }

    /** `query(query_text, top_k)`: the engine's answer over the loaded index,
        or the `AttributeError` when there is none. */
    method Query<Answer>(engine: (Index, int, string) -> Answer, queryText: string, topK: int)
      returns (r: Result<Answer, QueryError>)
      ensures index.None? <==> r.Err?
      ensures index.Some? ==> r == Ok(engine(index.value, topK, queryText))
    {
      if index.None? {
        return Err(NoIndex);
      }
      r := Ok(engine(index.value, topK, queryText));
    }
  }

  /** The class object `LlamaRetriever` itself, holding `_instance`. */
  class LlamaRetrieverClass<Index> {
    /** `_instance`: `null` until the first construction. */
    var instance: LlamaRetriever?<Index>

    constructor ()
      ensures instance == null
    {
      instance := null;
    }

    /** `__new__`: creates the instance the first time, and returns the same
        one on every later call. */
    method New() returns (obj: LlamaRetriever<Index>)
      modifies this
      ensures old(instance) != null ==> obj == old(instance)
      ensures old(instance) == null ==> fresh(obj) && obj.index == None
      ensures instance == obj
    {
      if instance == null {
        instance := new LlamaRetriever();
      }
      obj := instance;
    }

    /** `LlamaRetriever(index_path)`: `__new__` and then `__init__` on what it
        returned. The shared instance is set whether or not `__init__` raises;
        the caller receives it only when it does not. */
    method Construct(indexPath: Option<string>, pathExists: string -> bool, load: string -> Option<Index>)
      returns (r: Result<LlamaRetriever<Index>, InitError>)
      modifies this, instance
      ensures instance != null
      ensures old(instance) != null ==> instance == old(instance)
      ensures old(instance) == null ==> fresh(instance)
      ensures var before := if old(instance) == null then None else old(instance.index);
        var (after, outcome) := InitOutcome(before, indexPath, pathExists, load);
        instance.index == after &&
        (outcome.Ok? ==> r == Ok(instance)) &&
        (outcome.Err? ==> r == Err(outcome.error))
    {
      var obj := New();
      var init := obj.Init(indexPath, pathExists, load);
      if init.Err? {
        return Err(init.error);
      }
      r := Ok(obj);
    }

    /** Two constructions in a row, each with the disk as it is when it runs:
        both hand out the one shared instance, and it ends up holding the
        index of the last one that succeeded. */
    method ConstructTwice(first: Construction<Index>, second: Construction<Index>)
      returns (r1: Result<LlamaRetriever<Index>, InitError>, r2: Result<LlamaRetriever<Index>, InitError>)
      modifies this, instance
      ensures instance != null
      ensures r1.Ok? && r2.Ok? ==> r1.value == r2.value == instance
      ensures r2.Ok? <==> Completes(second)
      ensures var before := if old(instance) == null then None else old(instance.index);
        instance.index == Replay(before, [first, second])
    {
      ghost var before := if instance == null then None else instance.index;
      r1 := Construct(first.indexPath, first.pathExists, first.load);
      ghost var middle := instance.index;
      assert middle == Replay(before, [first]) by {
        assert [first][..0] == [];
      }
      r2 := Construct(second.indexPath, second.pathExists, second.load);
      assert [first, second][..1] == [first];
    }
  }
}
