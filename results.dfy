/**
 * `ResearchResults` (batchflow/research/research.py): the store of
 * experiment results and configurations, the filter over stored
 * configurations, and the checkpoint selection when results are read back.
 */
module Results {
  import opened Wrappers
  import opened Configs

  type Id = string

  /** Result series of one experiment: unit name -> iteration -> value. */
  type Series<V> = map<string, map<int, V>>

  // ---------------------------------------------------------------------
  // Sequences
  // ---------------------------------------------------------------------

  predicate Distinct<T(==)>(s: seq<T>)
  {
    forall i, j :: 0 <= i < j < |s| ==> s[i] != s[j]
  }

  /** `a` is `b` with some elements left out, order kept. */
  predicate SubsequenceOf<T(==)>(a: seq<T>, b: seq<T>)
    decreases |b|
  {
    if a == [] then true
    else if b == [] then false
    else if a[0] == b[0] then SubsequenceOf(a[1..], b[1..])
    else SubsequenceOf(a, b[1..])
  }

  // ---------------------------------------------------------------------
  // filter_ids_by_configs (lines 493-540)
  // ---------------------------------------------------------------------

  /** Which view of a stored configuration a filter compares against. */
  datatype View = Full | Alias

  function ViewOf(c: Config, v: View): Params
  {
    match v
    case Full => c.full
    case Alias => c.alias
  }

  /** The arguments of `filter_ids_by_configs`; `domain` is given as the
    * configurations its `iterator()` yields. */
  datatype Query = Query(config: Option<Params>, alias: Option<Params>, domain: Option<seq<Config>>, kwargs: Params)

  /** `sum([domain is not None, config is not None, alias is not None])` */
  function Given(q: Query): nat
  {
    (if q.domain.Some? then 1 else 0) + (if q.config.Some? then 1 else 0) + (if q.alias.Some? then 1 else 0)
  }

  /** Lines 531-539: the ids of `ids`, in order, whose configuration contains
    * `pattern` in view `v`. */
  function Select(ids: seq<Id>, configs: map<Id, Config>, v: View, pattern: Params): (r: seq<Id>)
    ensures forall x :: x in r <==> x in ids && x in configs && Contains(ViewOf(configs[x], v), pattern)
    ensures SubsequenceOf(r, ids)
  {
    if ids == [] then []
    else
      var rest := Select(ids[1..], configs, v, pattern);
      if ids[0] in configs && Contains(ViewOf(configs[ids[0]], v), pattern) then [ids[0]] + rest
      else rest
  }

  /** The data layout of `ResearchResults` with the shared dictionaries as
    * maps; `order` is the insertion order of ids, which Python dictionaries
    * keep and `configs.keys()` / `configs.items()` follow. */
  class ResearchResults<V> {
    var results: map<Id, Series<V>>
    var configs: map<Id, Config>
    var order: seq<Id>

    ghost predicate Valid()
      reads this
    {
      Distinct(order) &&
      (forall x :: x in order <==> x in configs) &&
      results.Keys == configs.Keys
    }

    constructor ()
      ensures Valid()
      ensures results == map[] && configs == map[] && order == []
    {
      results := map[];
      configs := map[];
      order := [];
    }

    /** `put` (lines 404-406): overwrites both entries of `id`; a new id goes
      * last in the store order, an existing one keeps its place. */
    method Put(id: Id, series: Series<V>, config: Config)
      requires Valid()
      modifies this
      ensures Valid()
      ensures results == old(results)[id := series]
      ensures configs == old(configs)[id := config]
      ensures order == if id in old(configs) then old(order) else old(order) + [id]
    {
      results := results[id := series];
      if id !in configs {
        order := order + [id];
      }
      configs := configs[id := config];
    }

    /** Lines 515-518: every id whose full configuration contains one of the
      * domain's configurations, domain configuration by domain configuration. */
    function DomainMatches(domain: seq<Config>): (r: seq<Id>)
      reads this
      ensures forall x :: x in r <==> (x in order && x in configs &&
        exists c :: c in domain && Contains(configs[x].full, c.full))
    {
      if domain == [] then []
      else Select(order, configs, Full, domain[0].full) + DomainMatches(domain[1..])
    }

    /** `filter_ids_by_configs`: with `domain`, the matches of each domain
      * configuration, concatenated (`kwargs` play no part); otherwise the
      * stored ids, in store order, whose configuration contains `config`
      * (or `alias`) merged with `kwargs`, `kwargs` winning. */
    function FilterIdsByConfigs(q: Query): (r: Result<seq<Id>>)
      reads this
      ensures r.Err? <==> Given(q) > 1
      ensures r.Err? ==> r.error == ValueError
      ensures r.Ok? && q.domain.Some? ==> r.value == DomainMatches(q.domain.value)
      ensures r.Ok? && q.domain.None? && q.config.None? && q.alias.None? && q.kwargs == map[] ==>
        r.value == order
      ensures r.Ok? && q.domain.None? && q.alias.None? && (q.config.Some? || q.kwargs != map[]) ==>
        r.value == Select(order, configs, Full, q.config.GetOr(map[]) + q.kwargs)
      ensures r.Ok? && q.alias.Some? ==> r.value == Select(order, configs, Alias, q.alias.value + q.kwargs)
    {
      if Given(q) > 1 then Err(ValueError)
      else if q.domain.Some? then Ok(DomainMatches(q.domain.value))
      else
        // lines 520-529
        var config :=
          if q.kwargs == map[] then q.config
          else if q.config.Some? then Some(q.config.value + q.kwargs)
          else if q.alias.Some? then None
          else Some(q.kwargs);
        var alias :=
          if q.kwargs != map[] && q.config.None? && q.alias.Some? then Some(q.alias.value + q.kwargs)
          else q.alias;
        assert q.config.Some? ==> q.config.value + map[] == q.config.value;
        assert q.alias.Some? ==> q.alias.value + map[] == q.alias.value;
        assert map[] + q.kwargs == q.kwargs;
        if config.None? && alias.None? then Ok(order)
        else if config.Some? then Ok(Select(order, configs, Full, config.value))
        else Ok(Select(order, configs, Alias, alias.value))
    }
  }

  // ---------------------------------------------------------------------
  // Properties of the filter
  // ---------------------------------------------------------------------

  /** Without any filter every stored id comes back, in store order. */
  lemma NoFilterListsAll<V>(store: ResearchResults<V>)
    requires store.Valid()
    ensures var r := store.FilterIdsByConfigs(Query(None, None, None, map[]));
      r.Ok? && r.value == store.order && forall x :: x in r.value <==> x in store.configs
  {
  }

  /** A key/value filter returns each matching stored id exactly once, in
    * store order, and no other id. */
  lemma FilterExact<V>(store: ResearchResults<V>, v: View, pattern: Params)
    requires store.Valid()
    ensures var r := Select(store.order, store.configs, v, pattern);
      Distinct(r) && SubsequenceOf(r, store.order) &&
      forall x :: x in r <==> x in store.configs && Contains(ViewOf(store.configs[x], v), pattern)
  {
    SubsequenceDistinct(Select(store.order, store.configs, v, pattern), store.order);
  }

  lemma {:induction false} SubsequenceDistinct<T>(a: seq<T>, b: seq<T>)
    requires SubsequenceOf(a, b) && Distinct(b)
    ensures Distinct(a)
    decreases |b|
  {
    if a != [] && b != [] {
      if a[0] == b[0] {
        SubsequenceDistinct(a[1..], b[1..]);
        SubsequenceElements(a[1..], b[1..]);
        forall j | 0 < j < |a|
          ensures a[0] != a[j]
        {
          assert a[j] == a[1..][j - 1];
          assert a[j] in b[1..];
        }
      } else {
        SubsequenceDistinct(a, b[1..]);
      }
    }
  }

  lemma {:induction false} SubsequenceElements<T>(a: seq<T>, b: seq<T>)
    requires SubsequenceOf(a, b)
    ensures forall x :: x in a ==> x in b
    decreases |b|
  {
    if a != [] && b != [] {
      if a[0] == b[0] {
        SubsequenceElements(a[1..], b[1..]);
        assert a == [a[0]] + a[1..];
      } else {
        SubsequenceElements(a, b[1..]);
      }
    }
  }

  /** In `domain` mode, the matches of two runs of domain configurations are
    * concatenated; a domain that repeats a configuration repeats its ids. */
  lemma {:induction false} DomainConcat<V>(store: ResearchResults<V>, d1: seq<Config>, d2: seq<Config>)
    ensures store.DomainMatches(d1 + d2) == store.DomainMatches(d1) + store.DomainMatches(d2)
    decreases |d1|
  {
    if d1 == [] {
      assert d1 + d2 == d2;
    } else {
      assert (d1 + d2)[1..] == d1[1..] + d2;
      DomainConcat(store, d1[1..], d2);
    }
  }

  /** `kwargs` do not narrow a `domain` query. */
  lemma DomainIgnoresKwargs<V>(store: ResearchResults<V>, domain: seq<Config>, kwargs: Params)
    ensures store.FilterIdsByConfigs(Query(None, None, Some(domain), kwargs))
         == store.FilterIdsByConfigs(Query(None, None, Some(domain), map[]))
  {
  }

  /** An id that matches a domain configuration given twice is listed twice. */
  lemma DomainDuplicates<V>(store: ResearchResults<V>, c: Config, x: Id)
    requires store.Valid() && x in store.configs && Contains(store.configs[x].full, c.full)
    ensures var r := store.FilterIdsByConfigs(Query(None, None, Some([c, c]), map[]));
      r.Ok? && exists i, j :: 0 <= i < j < |r.value| && r.value[i] == x && r.value[j] == x
  {
    var once := store.DomainMatches([c]);
    DomainConcat(store, [c], [c]);
    assert x in once;
    var i :| 0 <= i < |once| && once[i] == x;
    var r := once + once;
    assert r[i] == x && r[|once| + i] == x;
  }

  /** After `put`, an unfiltered query lists the id, and a key/value filter
    * matches it against the configuration just stored. */
  method PutThenFilter<V>(store: ResearchResults<V>, id: Id, series: Series<V>, config: Config, pattern: Params)
    returns (all: Result<seq<Id>>, matched: Result<seq<Id>>)
    requires store.Valid()
    modifies store
    ensures all.Ok? && id in all.value
    ensures matched.Ok? && (id in matched.value <==> Contains(config.full, pattern))
  {
    store.Put(id, series, config);
    all := store.FilterIdsByConfigs(Query(None, None, None, map[]));
    matched := store.FilterIdsByConfigs(Query(Some(pattern), None, None, map[]));
  }

  /** Re-submitting the same result leaves the store as one `put` left it:
    * the id keeps its single place in the order. */
  method PutTwice<V>(store: ResearchResults<V>, id: Id, series: Series<V>, config: Config)
    requires store.Valid()
    modifies store
    ensures store.Valid()
    ensures store.results == old(store.results)[id := series] && store.configs == old(store.configs)[id := config]
    ensures store.order == if id in old(store.configs) then old(store.order) else old(store.order) + [id]
  {
    UpdateAgain(store.results, id, series);
    UpdateAgain(store.configs, id, config);
    store.Put(id, series, config);
    store.Put(id, series, config);
  }

  /** Writing the same value under a key twice is writing it once. */
  lemma UpdateAgain<K, W>(m: map<K, W>, k: K, v: W)
    ensures m[k := v][k := v] == m[k := v]
  {
    var once := m[k := v];
    assert once[k := v].Keys == once.Keys;
    assert forall x :: x in once.Keys ==> once[k := v][x] == once[x];
  }

  // ---------------------------------------------------------------------
  // load_iteration_files (lines 431-449)
  // ---------------------------------------------------------------------

  predicate Increasing(s: seq<int>)
  {
    forall i, j :: 0 <= i < j < |s| ==> s[i] < s[j]
  }

  /** Some element of a non-empty set. */
  lemma Member(s: set<int>) returns (y: int)
    requires s != {}
    ensures y in s
  {
    if forall x :: x !in s {
      assert false;
    }
    y :| y in s;
  }

  lemma {:induction false} LeastExists(s: set<int>)
    requires s != {}
    ensures exists m :: m in s && forall x :: x in s ==> m <= x
    decreases |s|
  {
    var y := Member(s);
    if s != {y} {
      LeastExists(s - {y});
      var m :| m in s - {y} && forall x :: x in s - {y} ==> m <= x;
      var least := if y < m then y else m;
      forall x | x in s
        ensures least <= x
      {
        if x != y {
          assert x in s - {y};
        }
      }
      assert least in s;
    } else {
      forall x | x in s
        ensures y <= x
      {
        assert x in {y};
      }
    }
  }

  function Least(s: set<int>): (m: int)
    requires s != {}
    ensures m in s && forall x :: x in s ==> m <= x
  {
    LeastExists(s);
    var m :| m in s && forall x :: x in s ==> m <= x;
    m
  }

  /** `np.sort` of the checkpoint numbers. */
  function SortedKeys(s: set<int>): (r: seq<int>)
    ensures forall x :: x in r <==> x in s
    ensures Increasing(r)
    decreases |s|
  {
    if s == {} then []
    else
      var m := Least(s);
      var rest := SortedKeys(s - {m});
      assert forall x :: x in rest ==> m < x;
      [m] + rest
  }

  /** `dumped[np.argwhere(dumped >= it)[0, 0]]`: the first checkpoint of the
    * list that is at least `it`; `IndexError` when there is none. */
  function FirstAtLeast(dumped: seq<int>, it: int): (r: Result<int>)
    ensures r.Err? <==> forall x :: x in dumped ==> x < it
    ensures r.Err? ==> r.error == IndexError
    ensures r.Ok? ==> r.value in dumped && r.value >= it
    ensures r.Ok? && Increasing(dumped) ==> forall x :: x in dumped && x >= it ==> r.value <= x
  {
    if dumped == [] then Err(IndexError)
    else if dumped[0] >= it then
      var first := dumped[0];
      assert first in dumped;
      FirstIsLeast(dumped);
      Ok(first)
    else
      var r := FirstAtLeast(dumped[1..], it);
      assert dumped == [dumped[0]] + dumped[1..];
      assert forall x :: x in dumped <==> x == dumped[0] || x in dumped[1..];
      assert Increasing(dumped) ==> Increasing(dumped[1..]);
      r
  }

  lemma FirstIsLeast(s: seq<int>)
    requires s != []
    ensures Increasing(s) ==> forall x :: x in s ==> s[0] <= x
  {
    if Increasing(s) {
      forall x | x in s
        ensures s[0] <= x
      {
        var i :| 0 <= i < |s| && s[i] == x;
      }
    }
  }

  /** Lines 433-441: the checkpoints to load; every one for `None`, else the
    * smallest checkpoint at least each requested iteration. */
  function Selected<V>(files: map<int, map<int, V>>, iteration: Option<seq<int>>): (r: Result<set<int>>)
    ensures r.Ok? ==> r.value <= files.Keys
  {
    match iteration
    case None => Ok(files.Keys)
    case Some(its) => Choose(SortedKeys(files.Keys), its)
  }

  /** The loop at lines 438-440, over the requested iterations in order. */
  function Choose(dumped: seq<int>, its: seq<int>): (r: Result<set<int>>)
    ensures r.Ok? ==> forall k :: k in r.value ==> k in dumped
    ensures r.Err? <==> exists i :: 0 <= i < |its| && FirstAtLeast(dumped, its[i]).Err?
    ensures r.Err? ==> r.error == IndexError
    ensures r.Ok? ==> forall i :: 0 <= i < |its| ==> FirstAtLeast(dumped, its[i]).value in r.value
    ensures r.Ok? ==> forall k :: k in r.value ==> exists i :: 0 <= i < |its| && FirstAtLeast(dumped, its[i]) == Ok(k)
  {
    if its == [] then Ok({})
    else
      match FirstAtLeast(dumped, its[0])
      case Err(e) => Err(e)
      case Ok(k) =>
        match Choose(dumped, its[1..])
        case Err(e) => Err(e)
        case Ok(ks) =>
          assert forall i :: 1 <= i < |its| ==> its[i] == its[1..][i - 1];
          Ok({k} + ks)
  }

  /** `iteration is None or it in iteration` */
  predicate Kept(iteration: Option<seq<int>>, it: int)
  {
    iteration.None? || it in iteration.value
  }

  /** The values of one checkpoint that are kept. */
  function Keep<V>(values: map<int, V>, iteration: Option<seq<int>>): map<int, V>
  {
    map it | it in values && Kept(iteration, it) :: values[it]
  }

  /** Lines 443-448: the kept values of the checkpoints, in the order
    * given, a later checkpoint overriding an earlier one. */
  function Merge<V>(files: map<int, map<int, V>>, ks: seq<int>, iteration: Option<seq<int>>): map<int, V>
    requires forall k :: k in ks ==> k in files
  {
    if ks == [] then map[]
    else
      var init, last := ks[..|ks| - 1], ks[|ks| - 1];
      assert last in ks;
      assert last in files;
      assert forall k :: k in init ==> k in ks;
      Merge(files, init, iteration) + Keep(files[last], iteration)
  }

  /** `load_iteration_files`, with the directory listing given as a map from
    * checkpoint to the iteration -> value mapping stored in its file. */
  function LoadIterationFiles<V>(files: map<int, map<int, V>>, iteration: Option<seq<int>>): Result<map<int, V>>
  {
    match Selected(files, iteration)
    case Err(e) => Err(e)
    case Ok(ks) => Ok(Merge(files, SortedKeys(ks), iteration))
  }

  /** Loading checkpoints in ascending order: an iteration is loaded iff it is
    * kept and some checkpoint holds it, and its value comes from the largest
    * such checkpoint. */
  lemma {:induction false} MergeLatestWins<V>(files: map<int, map<int, V>>, ks: seq<int>, iteration: Option<seq<int>>, it: int)
    requires forall k :: k in ks ==> k in files
    requires Increasing(ks)
    ensures it in Merge(files, ks, iteration) <==> Kept(iteration, it) && exists k :: k in ks && it in files[k]
    ensures it in Merge(files, ks, iteration) ==>
      exists k :: k in ks && it in files[k] && Merge(files, ks, iteration)[it] == files[k][it] &&
        forall k' :: k' in ks && k' > k ==> it !in files[k']
    decreases |ks|
  {
    if ks != [] {
      var init, last := ks[..|ks| - 1], ks[|ks| - 1];
      assert forall k :: k in ks <==> k in init || k == last;
      assert Increasing(init);
      MergeLatestWins(files, init, iteration, it);
      if it in files[last] && Kept(iteration, it) {
        assert Merge(files, ks, iteration)[it] == files[last][it];
        forall k' | k' in ks
          ensures k' <= last
        {
          var i :| 0 <= i < |ks| && ks[i] == k';
        }
      } else if it in Merge(files, init, iteration) {
        var k :| k in init && it in files[k] && Merge(files, init, iteration)[it] == files[k][it] &&
          forall k' :: k' in init && k' > k ==> it !in files[k'];
        assert k in ks && it in files[k] && Merge(files, ks, iteration)[it] == files[k][it];
      }
    }
  }

  /** With `iteration=None` every iteration of every checkpoint is loaded,
    * the largest checkpoint holding it supplying the value. */
  lemma LoadAll<V>(files: map<int, map<int, V>>, it: int)
    ensures var r := LoadIterationFiles(files, None);
      r.Ok? &&
      (it in r.value <==> exists k :: k in files && it in files[k]) &&
      (it in r.value ==> exists k :: (k in files && it in files[k] && r.value[it] == files[k][it] &&
        forall k' :: k' in files && k' > k ==> it !in files[k']))
  {
    var ks := SortedKeys(files.Keys);
    MergeLatestWins(files, ks, None, it);
  }

  /** With a list of iterations, loading fails with `IndexError` iff some
    * requested iteration exceeds every checkpoint. */
  lemma LoadRequestedFails<V>(files: map<int, map<int, V>>, its: seq<int>)
    ensures var r := LoadIterationFiles(files, Some(its));
      (r.Err? <==> exists i :: 0 <= i < |its| && forall k :: k in files ==> k < its[i]) &&
      (r.Err? ==> r.error == IndexError)
  {
    var dumped := SortedKeys(files.Keys);
    forall i | 0 <= i < |its|
      ensures FirstAtLeast(dumped, its[i]).Err? <==> forall k :: k in files ==> k < its[i]
    {
      if FirstAtLeast(dumped, its[i]).Err? {
        forall k | k in files
          ensures k < its[i]
        {
          assert k in dumped;
        }
      }
    }
  }

  /** With a list of iterations, only requested iterations are loaded. */
  lemma LoadOnlyRequested<V>(files: map<int, map<int, V>>, its: seq<int>, it: int)
    requires LoadIterationFiles(files, Some(its)).Ok?
    ensures it in LoadIterationFiles(files, Some(its)).value ==> it in its
  {
    var sel := Selected(files, Some(its)).value;
    assert forall k :: k in sel ==> k in files;
    MergeLatestWins(files, SortedKeys(sel), Some(its), it);
  }

  /** For each requested iteration, the smallest checkpoint at least that
    * iteration is among the files read. */
  lemma LoadPicksLeast<V>(files: map<int, map<int, V>>, its: seq<int>, it: int)
    requires LoadIterationFiles(files, Some(its)).Ok? && it in its
    ensures exists k ::
      k in Selected(files, Some(its)).value && k >= it &&
      forall k' :: k' in files && k' >= it ==> k <= k'
  {
    var dumped := SortedKeys(files.Keys);
    var sel := Selected(files, Some(its)).value;
    var i :| 0 <= i < |its| && its[i] == it;
    var k := FirstAtLeast(dumped, it).value;
    assert k in sel;
    forall k' | k' in files && k' >= it
      ensures k <= k'
    {
      assert k' in dumped;
    }
  }
}
