/**
  The record merger (`merge_results`, main.py:74-88).

  The sources are folded, record by record, into an insertion-ordered
  dictionary keyed by `domain`. The dictionary is modelled by the sequence of
  its keys in insertion order plus a `map` from key to stored record
  (`Combined`). `Combine` is the fold as a function over the concatenated
  records; the method `MergeResults` runs the source's nested loops and is
  proved to compute it. What the fold promises per domain is proved in
  module MergeProperties.
 */
module Merge {
  import opened Records

  /**
    `list(set(xs))`: the elements of `xs` without repetition. Python leaves the
    order to the set; this model keeps first occurrences, and nothing stated
    about the merge depends on that order.
   */
  function Dedup(xs: seq<string>): (r: seq<string>)
    ensures Distinct(r)
    ensures forall x :: x in r <==> x in xs
  {
    if xs == [] then []
    else
      var init, x := xs[..|xs| - 1], xs[|xs| - 1];
      assert xs == init + [x];
      var rest := Dedup(init);
      if x in rest then rest else rest + [x]
  }

  /**
    The update of a stored record by a later record with the same domain
    (main.py:83-87). Reading the stored record's `signals` and `source` raises
    a `KeyError` when it lacks them; `incoming` may lack both.
   */
  function Absorb(stored: Record, incoming: Record): (r: Result<Record>)
    ensures r.Err? <==> stored.signals.None? || stored.source.None?
    ensures r.Ok? ==> Frozen(r.value) == Frozen(stored)
  {
    if stored.signals.None? then Err(KeyError("signals"))
    else if stored.source.None? then Err(KeyError("source"))
    else
      Ok(stored.(
        signals := Some(stored.signals.value + SignalsOf(incoming)),
        source := Some(Dedup(stored.source.value + SourcesOf(incoming))),
        fundingStage := if incoming.fundingStage.Some? then incoming.fundingStage else stored.fundingStage))
  }

  /**
    The three merge policies of one update: the signals are overwritten key by
    key (keys of `incoming` win, other keys of `stored` stay), the sources
    become the union of both lists without repetition, a funding stage carried
    by `incoming` replaces the stored one, and no other field changes. The
    update fails exactly when the stored record lacks `signals` or `source`.
   */
  lemma AbsorbPolicy(stored: Record, incoming: Record)
    ensures Absorb(stored, incoming).Err? <==> stored.signals.None? || stored.source.None?
    ensures Absorb(stored, incoming).Err? ==>
      Absorb(stored, incoming).error == KeyError(if stored.signals.None? then "signals" else "source")
    ensures Absorb(stored, incoming).Ok? ==>
      var r := Absorb(stored, incoming).value;
      && Frozen(r) == Frozen(stored)
      && r.signals.Some? && r.source.Some?
      && (forall k :: k in SignalsOf(r) <==> k in SignalsOf(stored) || k in SignalsOf(incoming))
      && (forall k :: k in SignalsOf(incoming) ==> SignalsOf(r)[k] == SignalsOf(incoming)[k])
      && (forall k :: k in SignalsOf(stored) && k !in SignalsOf(incoming) ==> SignalsOf(r)[k] == SignalsOf(stored)[k])
      && Distinct(SourcesOf(r))
      && (forall x :: x in SourcesOf(r) <==> x in SourcesOf(stored) || x in SourcesOf(incoming))
      && r.fundingStage == if incoming.fundingStage.Some? then incoming.fundingStage else stored.fundingStage
  {
  }

  /** The `combined` dictionary: its keys in insertion order and its entries. */
  datatype Combined = Combined(order: seq<string>, table: map<string, Record>) {
    /** Each key is listed exactly once, and the list holds exactly the keys. */
    predicate Valid() {
      && Distinct(order)
      && (forall d :: d in order ==> d in table)
      && (forall d :: d in table ==> d in order)
    }

    /** `list(combined.values())`: the stored records in insertion order. */
    function Values(): (vs: seq<Record>)
      requires Valid()
      ensures |vs| == |order|
      ensures forall r :: r in vs <==> exists d :: d in table && table[d] == r
    {
      var vs := seq(|order|, i requires 0 <= i < |order| => table[order[i]]);
      assert forall d :: d in table ==> table[d] in vs by {
        forall d | d in table
          ensures table[d] in vs
        {
          var i :| 0 <= i < |order| && order[i] == d;
          assert vs[i] == table[d];
        }
      }
      vs
    }
  }

  /**
    One iteration of the inner loop (main.py:78-87) on record `r`. It fails when
    `r` has no domain, or when its domain is known and the stored record lacks
    `signals` or `source`; otherwise the known keys gain the domain of `r` and
    every other entry is kept.
   */
  function Insert(m: Combined, r: Record): (res: Result<Combined>)
    ensures res.Err? <==>
      || r.domain.None?
      || (r.domain.value in m.table && (m.table[r.domain.value].signals.None? || m.table[r.domain.value].source.None?))
  {
    if r.domain.None? then Err(KeyError("domain"))
    else
      var d := r.domain.value;
      if d !in m.table then Ok(Combined(m.order + [d], m.table[d := r]))
      else
        match Absorb(m.table[d], r)
        case Err(e) => Err(e)
        case Ok(merged) => Ok(Combined(m.order, m.table[d := merged]))
  }

  /**
    A successful `Insert` adds the domain of `r` to the keys, lists a new
    domain last, leaves the key order of a known one alone, and keeps every
    other entry.
   */
  lemma InsertKeeps(m: Combined, r: Record)
    requires Insert(m, r).Ok?
    ensures var m' := Insert(m, r).value;
      && m'.table.Keys == m.table.Keys + {r.domain.value}
      && m'.order == (if r.domain.value in m.table then m.order else m.order + [r.domain.value])
      && forall d :: d in m.table && d != r.domain.value ==> m'.table[d] == m.table[d]
  {
  }

  /**
    The whole fold over the records in processing order. The first error
    aborts it and is its result: no partial dictionary survives.
   */
  function Combine(rs: seq<Record>): (r: Result<Combined>)
    ensures r.Ok? ==> r.value.Valid()
    ensures r.Ok? ==> |r.value.order| <= |rs|
  {
    if rs == [] then Ok(Combined([], map[]))
    else
      match Combine(rs[..|rs| - 1])
      case Err(e) => Err(e)
      case Ok(m) => Insert(m, rs[|rs| - 1])
  }

  /**
    The records of all sources in processing order: source by source, each in
    its own order. A single source is its own list of records, and the last
    source contributes at least its own records; `FlattenAppend` and
    `FlattenEmpty` state the rest.
   */
  function Flatten(sources: seq<seq<Record>>): (r: seq<Record>)
    ensures |sources| == 1 ==> r == sources[0]
    ensures sources != [] ==> |sources[|sources| - 1]| <= |r|
  {
    if sources == [] then []
    else Flatten(sources[..|sources| - 1]) + sources[|sources| - 1]
  }

  /**
    What `merge_results(*sources)` returns, or the `KeyError` it raises. It
    never returns more records than it was given, and no records give none.
   */
  function MergeSpec(sources: seq<seq<Record>>): (r: Result<seq<Record>>)
    ensures r.Ok? ==> |r.value| <= |Flatten(sources)|
    ensures Flatten(sources) == [] ==> r == Ok([])
  {
    match Combine(Flatten(sources))
    case Err(e) => Err(e)
    case Ok(m) => Ok(m.Values())
  }

  /** The fold over one more record is one more `Insert`. */
  lemma CombineSnoc(rs: seq<Record>, r: Record)
    ensures Combine(rs + [r]) == if Combine(rs).Err? then Combine(rs) else Insert(Combine(rs).value, r)
  {
    assert (rs + [r])[..|rs|] == rs;
  }

  lemma {:induction false} CombineErrPersists(rs: seq<Record>, more: seq<Record>)
    requires Combine(rs).Err?
    ensures Combine(rs + more) == Combine(rs)
    decreases |more|
  {
    if more != [] {
      var init := more[..|more| - 1];
      CombineErrPersists(rs, init);
      var all := rs + more;
      assert all[..|all| - 1] == rs + init;
      assert Combine(all[..|all| - 1]).Err?;
    } else {
      assert rs + more == rs;
    }
  }

  /** There is no record exactly when every source is empty. */
  lemma {:induction false} FlattenEmpty(sources: seq<seq<Record>>)
    ensures Flatten(sources) == [] <==> forall k :: 0 <= k < |sources| ==> sources[k] == []
  {
    if sources != [] {
      var init := sources[..|sources| - 1];
      FlattenEmpty(init);
      assert forall k :: 0 <= k < |init| ==> init[k] == sources[k];
    }
  }

  lemma {:induction false} FlattenAppend(a: seq<seq<Record>>, b: seq<seq<Record>>)
    ensures Flatten(a + b) == Flatten(a) + Flatten(b)
    decreases |b|
  {
    if b == [] {
      assert a + b == a;
    } else {
      var init := b[..|b| - 1];
      assert (a + b)[..|a + b| - 1] == a + init;
      FlattenAppend(a, init);
    }
  }

  /**
    The source's nested loops (main.py:75-88), with the dictionary held as the
    key list `order` and the map `combined`.
   */
  method MergeResults(sources: seq<seq<Record>>) returns (result: Result<seq<Record>>)
    ensures result == MergeSpec(sources)
  {
    var order: seq<string> := [];
    var combined: map<string, Record> := map[];
    for i := 0 to |sources|
      invariant Combine(Flatten(sources[..i])) == Ok(Combined(order, combined))
    {
      var src := sources[i];
      ghost var before := Flatten(sources[..i]);
      assert before + src[..0] == before;
      for j := 0 to |src|
        invariant Combine(before + src[..j]) == Ok(Combined(order, combined))
      {
        InnerStep(before, src, j, Combined(order, combined));
        var step := MergeRecord(order, combined, src[j]);
        if step.Err? {
          result := Err(step.error);
          EarlyExit(sources, i, j);
          return;
        }
        order, combined := step.value.order, step.value.table;
      }
      assert src[..|src|] == src;
      FlattenStep(sources, i);
    }
    assert sources[..|sources|] == sources;
    result := Ok(Combined(order, combined).Values());
  }

  /**
    One iteration of the inner loop (main.py:78-87): store a record with a new
    domain, or update the stored record in place, raising where the source
    raises.
   */
  method MergeRecord(order: seq<string>, combined: map<string, Record>, comp: Record) returns (res: Result<Combined>)
    ensures res == Insert(Combined(order, combined), comp)
  {
    if comp.domain.None? {
      return Err(KeyError("domain"));
    }
    var domain := comp.domain.value;
    if domain !in combined {
      return Ok(Combined(order + [domain], combined[domain := comp]));
    }
    var stored := combined[domain];
    if stored.signals.None? {
      return Err(KeyError("signals"));
    }
    stored := stored.(signals := Some(stored.signals.value + SignalsOf(comp)));
    if stored.source.None? {
      return Err(KeyError("source"));
    }
    stored := stored.(source := Some(Dedup(stored.source.value + SourcesOf(comp))));
    if comp.fundingStage.Some? {
      stored := stored.(fundingStage := comp.fundingStage);
    }
    return Ok(Combined(order, combined[domain := stored]));
  }

  /** The fold after record `j` of the current source is one more `Insert`. */
  lemma InnerStep(before: seq<Record>, src: seq<Record>, j: nat, m: Combined)
    requires j < |src| && Combine(before + src[..j]) == Ok(m)
    ensures Combine(before + src[..j + 1]) == Insert(m, src[j])
  {
    TakeOneMore(src, j);
    assert before + src[..j + 1] == (before + src[..j]) + [src[j]];
    CombineSnoc(before + src[..j], src[j]);
  }

  lemma TakeOneMore<T>(s: seq<T>, j: nat)
    requires j < |s|
    ensures s[..j + 1] == s[..j] + [s[j]]
  {
  }

  lemma FlattenStep(sources: seq<seq<Record>>, i: nat)
    requires i < |sources|
    ensures Flatten(sources[..i + 1]) == Flatten(sources[..i]) + sources[i]
  {
    assert sources[..i + 1][..i] == sources[..i];
  }

  /**
    If the fold fails at record `j` of source `i`, the whole merge fails with
    the same error.
   */
  lemma EarlyExit(sources: seq<seq<Record>>, i: nat, j: nat)
    requires i < |sources| && j < |sources[i]|
    requires Combine(Flatten(sources[..i]) + sources[i][..j + 1]).Err?
    ensures MergeSpec(sources) == Err(Combine(Flatten(sources[..i]) + sources[i][..j + 1]).error)
  {
    var done := Flatten(sources[..i]) + sources[i][..j + 1];
    var rest := sources[i][j + 1..] + Flatten(sources[i + 1..]);
    FlattenSplit(sources, i, j);
    CombineErrPersists(done, rest);
  }

  /** The records of all sources, cut after record `j` of source `i`. */
  lemma FlattenSplit(sources: seq<seq<Record>>, i: nat, j: nat)
    requires i < |sources| && j < |sources[i]|
    ensures Flatten(sources) == (Flatten(sources[..i]) + sources[i][..j + 1]) + (sources[i][j + 1..] + Flatten(sources[i + 1..]))
  {
    assert sources == sources[..i] + [sources[i]] + sources[i + 1..];
    FlattenAppend(sources[..i] + [sources[i]], sources[i + 1..]);
    FlattenAppend(sources[..i], [sources[i]]);
    assert Flatten([sources[i]]) == sources[i] by {
      assert [sources[i]][..0] == [];
    }
    SplitAt(sources[i], j + 1);
    AppendAssoc(Flatten(sources[..i]), sources[i][..j + 1], sources[i][j + 1..], Flatten(sources[i + 1..]));
  }

  lemma SplitAt<T>(s: seq<T>, n: nat)
    requires n <= |s|
    ensures s == s[..n] + s[n..]
  {
  }

  lemma AppendAssoc<T>(a: seq<T>, b: seq<T>, c: seq<T>, d: seq<T>)
    ensures a + (b + c) + d == (a + b) + (c + d)
  {
  }
}
