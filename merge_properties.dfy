/**
  What `merge_results` (main.py:74-88) promises about its output, proved of
  the fold `Merge.Combine` and hence of the method `Merge.MergeResults`.

  The key step is `CombineGroups`: the fold over all records gives, for each
  domain, the same record as folding only that domain's records
  (`Contributors`) with `MergeGroup`. The field policies (first writer wins,
  key-wise signal overwrite, source union, last funding stage) are then
  proved of `MergeGroup` by induction on one domain's records.
 */
module MergeProperties {
  import opened Records
  import opened Merge

  /** Some record has domain `d`. */
  predicate Seen(rs: seq<Record>, d: string) {
    exists k :: 0 <= k < |rs| && rs[k].domain == Some(d)
  }

  /** Some record of `out` has domain `d`. */
  predicate Lists(out: seq<Record>, d: Option<string>) {
    exists i :: 0 <= i < |out| && out[i].domain == d
  }

  /** The domain of a record, `""` when it has none. */
  function DomainOf(r: Record): string {
    r.domain.GetOr("")
  }

  /** The records with domain `d`, in processing order. */
  function Contributors(rs: seq<Record>, d: string): (c: seq<Record>)
    ensures forall j :: 0 <= j < |c| ==> c[j].domain == Some(d)
    ensures c != [] <==> Seen(rs, d)
  {
    if rs == [] then []
    else
      var init, r := rs[..|rs| - 1], rs[|rs| - 1];
      assert forall k :: 0 <= k < |init| ==> init[k] == rs[k];
      Contributors(init, d) + (if r.domain == Some(d) then [r] else [])
  }

  lemma ContributorsStep(rs: seq<Record>, d: string)
    requires rs != []
    ensures Contributors(rs, d) == Contributors(rs[..|rs| - 1], d) + (if rs[|rs| - 1].domain == Some(d) then [rs[|rs| - 1]] else [])
    ensures Seen(rs, d) <==> Seen(rs[..|rs| - 1], d) || rs[|rs| - 1].domain == Some(d)
  {
  }

  /** The position of the first record with domain `d`. */
  function FirstSeen(rs: seq<Record>, d: string): (k: nat)
    requires Seen(rs, d)
    ensures k < |rs| && rs[k].domain == Some(d)
    ensures forall j :: 0 <= j < k ==> rs[j].domain != Some(d)
  {
    var init := rs[..|rs| - 1];
    assert forall k :: 0 <= k < |init| ==> init[k] == rs[k];
    if Seen(init, d) then FirstSeen(init, d) else |rs| - 1
  }

  /** The merge of the records of a single domain, folded in processing order. */
  function MergeGroup(c: seq<Record>): Result<Record>
    requires c != []
  {
    if |c| == 1 then Ok(c[0])
    else
      match MergeGroup(c[..|c| - 1])
      case Err(e) => Err(e)
      case Ok(m) => Absorb(m, c[|c| - 1])
  }

  // ---------------------------------------------------------------------------
  // One domain

  /**
    Merging one domain's records fails exactly when the domain repeats and its
    first record lacks `signals` or `source`; otherwise the first record's
    fields other than signals, source and funding stage survive unchanged.
   */
  lemma {:induction false} MergeGroupFirstWins(c: seq<Record>)
    requires c != []
    ensures MergeGroup(c).Err? <==> |c| > 1 && (c[0].signals.None? || c[0].source.None?)
    ensures MergeGroup(c).Err? ==> MergeGroup(c).error == KeyError(if c[0].signals.None? then "signals" else "source")
    ensures MergeGroup(c).Ok? ==> Frozen(MergeGroup(c).value) == Frozen(c[0])
    ensures MergeGroup(c).Ok? ==> (MergeGroup(c).value.signals.Some? <==> c[0].signals.Some?)
    ensures MergeGroup(c).Ok? ==> (MergeGroup(c).value.source.Some? <==> c[0].source.Some?)
  {
    if |c| > 1 {
      var init := c[..|c| - 1];
      MergeGroupFirstWins(init);
      assert init[0] == c[0];
      if MergeGroup(init).Ok? {
        AbsorbPolicy(MergeGroup(init).value, c[|c| - 1]);
      }
    }
  }

  /**
    Signals are a key-wise overwrite in processing order: a key is present iff
    some record of the domain carries it, and its value is the one of the last
    record that carries it (a later `false` replaces an earlier `true`; a record
    without the key leaves it alone).
   */
  lemma {:induction false} MergeGroupSignals(c: seq<Record>, key: string)
    requires c != [] && MergeGroup(c).Ok?
    ensures key in SignalsOf(MergeGroup(c).value) <==> exists j :: 0 <= j < |c| && key in SignalsOf(c[j])
    ensures key in SignalsOf(MergeGroup(c).value) ==>
      exists j :: 0 <= j < |c| && key in SignalsOf(c[j])
        && SignalsOf(MergeGroup(c).value)[key] == SignalsOf(c[j])[key]
        && forall j' :: j < j' < |c| ==> key !in SignalsOf(c[j'])
  {
    if |c| > 1 {
      var init, r := c[..|c| - 1], c[|c| - 1];
      MergeGroupSignals(init, key);
      AbsorbPolicy(MergeGroup(init).value, r);
      assert forall j :: 0 <= j < |init| ==> init[j] == c[j];
      var v := MergeGroup(c).value;
      if key in SignalsOf(r) {
        assert SignalsOf(v)[key] == SignalsOf(c[|c| - 1])[key];
      } else if key in SignalsOf(v) {
        var j :| 0 <= j < |init| && key in SignalsOf(init[j])
          && SignalsOf(MergeGroup(init).value)[key] == SignalsOf(init[j])[key]
          && forall j' :: j < j' < |init| ==> key !in SignalsOf(init[j']);
        assert SignalsOf(v)[key] == SignalsOf(c[j])[key];
      }
    }
  }

  /**
    A domain seen once keeps its `source` verbatim; otherwise the merged
    `source` holds each source named by any of the domain's records, once.
   */
  lemma {:induction false} MergeGroupSources(c: seq<Record>)
    requires c != [] && MergeGroup(c).Ok?
    ensures |c| == 1 ==> MergeGroup(c).value.source == c[0].source
    ensures |c| > 1 ==> MergeGroup(c).value.source.Some? && Distinct(SourcesOf(MergeGroup(c).value))
    ensures |c| > 1 ==> forall x :: x in SourcesOf(MergeGroup(c).value) <==> exists j :: 0 <= j < |c| && x in SourcesOf(c[j])
  {
    if |c| > 1 {
      var init := c[..|c| - 1];
      MergeGroupSources(init);
      AbsorbPolicy(MergeGroup(init).value, c[|c| - 1]);
      assert forall j :: 0 <= j < |init| ==> init[j] == c[j];
      forall x | x in SourcesOf(MergeGroup(c).value)
        ensures exists j :: 0 <= j < |c| && x in SourcesOf(c[j])
      {
        if x !in SourcesOf(c[|c| - 1]) {
          if |init| == 1 {
            assert x in SourcesOf(c[0]);
          }
        }
      }
      forall x, j | 0 <= j < |c| && x in SourcesOf(c[j])
        ensures x in SourcesOf(MergeGroup(c).value)
      {
        if j < |init| && |init| == 1 {
          assert x in SourcesOf(init[0]);
        }
      }
    }
  }

  /**
    The funding stage is the one of the last record of the domain that carries
    one; it is absent only if no record of the domain carries one.
   */
  lemma {:induction false} MergeGroupFundingStage(c: seq<Record>)
    requires c != [] && MergeGroup(c).Ok?
    ensures MergeGroup(c).value.fundingStage.Some? <==> exists j :: 0 <= j < |c| && c[j].fundingStage.Some?
    ensures MergeGroup(c).value.fundingStage.Some? ==>
      exists j :: 0 <= j < |c| && c[j].fundingStage == MergeGroup(c).value.fundingStage
        && forall j' :: j < j' < |c| ==> c[j'].fundingStage.None?
  {
    if |c| > 1 {
      var init := c[..|c| - 1];
      MergeGroupFundingStage(init);
      AbsorbPolicy(MergeGroup(init).value, c[|c| - 1]);
      assert forall j :: 0 <= j < |init| ==> init[j] == c[j];
      if c[|c| - 1].fundingStage.None? && MergeGroup(c).value.fundingStage.Some? {
        var j :| 0 <= j < |init| && init[j].fundingStage == MergeGroup(init).value.fundingStage
          && forall j' :: j < j' < |init| ==> init[j'].fundingStage.None?;
        assert c[j].fundingStage == MergeGroup(c).value.fundingStage;
      }
    }
  }

  // ---------------------------------------------------------------------------
  // From the whole fold to one domain

  /**
    `m` holds one entry per domain seen in `rs`, and that entry is the merge of
    the domain's own records.
   */
  ghost predicate GroupedBy(rs: seq<Record>, m: Combined) {
    && (forall d :: d in m.table <==> Seen(rs, d))
    && (forall d :: d in m.table ==> MergeGroup(Contributors(rs, d)) == Ok(m.table[d]))
  }

  /**
    The fold keeps one entry per domain seen, and that entry is the merge of
    the domain's own records.
   */
  lemma {:induction false} CombineGroups(rs: seq<Record>)
    requires Combine(rs).Ok?
    ensures forall d :: d in Combine(rs).value.table <==> Seen(rs, d)
    ensures forall d :: d in Combine(rs).value.table ==> MergeGroup(Contributors(rs, d)) == Ok(Combine(rs).value.table[d])
  {
    if rs != [] {
      var init := rs[..|rs| - 1];
      CombineGroups(init);
      var m := Combine(init).value;
      assert GroupedBy(init, m);
      assert Combine(rs) == Insert(m, rs[|rs| - 1]);
      GroupStep(rs, m);
    }
  }

  /** One more record keeps the dictionary grouped by domain. */
  lemma GroupStep(rs: seq<Record>, m: Combined)
    requires rs != [] && GroupedBy(rs[..|rs| - 1], m) && Insert(m, rs[|rs| - 1]).Ok?
    ensures GroupedBy(rs, Insert(m, rs[|rs| - 1]).value)
  {
    var init, r := rs[..|rs| - 1], rs[|rs| - 1];
    var d := r.domain.value;
    var t := Insert(m, r).value.table;
    assert t.Keys == m.table.Keys + {d};
    forall e
      ensures e in t <==> Seen(rs, e)
    {
      ContributorsStep(rs, e);
    }
    forall e | e in t
      ensures MergeGroup(Contributors(rs, e)) == Ok(t[e])
    {
      ContributorsStep(rs, e);
      var c := Contributors(init, e);
      if e != d {
        assert Contributors(rs, e) == c && e in m.table;
        assert t[e] == m.table[e];
      } else if c != [] {
        assert Contributors(rs, e) == c + [r] && d in m.table;
        assert MergeGroup(c) == Ok(m.table[d]);
        MergeGroupSnoc(c, r);
        assert Absorb(m.table[d], r) == Ok(t[d]);
      } else {
        assert Contributors(rs, e) == [r] && d !in m.table;
        assert t[d] == r;
      }
    }
  }

  /** Merging one more record of the domain is one more `Absorb`. */
  lemma MergeGroupSnoc(c: seq<Record>, r: Record)
    requires c != []
    ensures MergeGroup(c + [r]) == if MergeGroup(c).Err? then MergeGroup(c) else Absorb(MergeGroup(c).value, r)
  {
    assert (c + [r])[..|c|] == c;
  }

  lemma {:induction false} FirstSeenExtends(rs: seq<Record>, d: string)
    requires rs != [] && Seen(rs[..|rs| - 1], d)
    ensures Seen(rs, d) && FirstSeen(rs, d) == FirstSeen(rs[..|rs| - 1], d)
  {
    var init := rs[..|rs| - 1];
    var b := FirstSeen(init, d);
    assert rs[b] == init[b];
  }

  /** The first record of a domain's contributors is the first record seen with that domain. */
  lemma {:induction false} FirstContributor(rs: seq<Record>, d: string)
    requires Seen(rs, d)
    ensures Contributors(rs, d)[0] == rs[FirstSeen(rs, d)]
  {
    var init := rs[..|rs| - 1];
    if Seen(init, d) {
      FirstContributor(init, d);
      FirstSeenExtends(rs, d);
    }
  }

  /**
    `o` lists every domain seen in `rs`, ordered by where each domain was first
    seen.
   */
  ghost predicate ListsByFirstSeen(rs: seq<Record>, o: seq<string>) {
    && (forall d :: d in o <==> Seen(rs, d))
    && (forall i, j :: 0 <= i < j < |o| ==> FirstSeen(rs, o[i]) < FirstSeen(rs, o[j]))
  }

  /** One more record keeps the key list ordered by first sighting. */
  lemma OrderStep(rs: seq<Record>, o: seq<string>)
    requires rs != [] && rs[|rs| - 1].domain.Some?
    requires ListsByFirstSeen(rs[..|rs| - 1], o)
    ensures var d := rs[|rs| - 1].domain.value;
      ListsByFirstSeen(rs, if d in o then o else o + [d])
  {
    var init, d := rs[..|rs| - 1], rs[|rs| - 1].domain.value;
    var o' := if d in o then o else o + [d];
    forall e
      ensures e in o' <==> Seen(rs, e)
    {
      ContributorsStep(rs, e);
    }
    forall i | 0 <= i < |o|
      ensures FirstSeen(rs, o[i]) == FirstSeen(init, o[i]) < |init|
    {
      FirstSeenExtends(rs, o[i]);
    }
    if d !in o {
      assert !Seen(init, d);
      assert FirstSeen(rs, d) == |init|;
    }
  }

  /**
    The fold's key list holds every domain seen, once, ordered by where each
    domain was first seen.
   */
  lemma {:induction false} CombineOrder(rs: seq<Record>)
    requires Combine(rs).Ok?
    ensures ListsByFirstSeen(rs, Combine(rs).value.order)
  {
    if rs != [] {
      var init, r := rs[..|rs| - 1], rs[|rs| - 1];
      CombineOrder(init);
      var m := Combine(init).value;
      var d := r.domain.value;
      assert Combine(rs) == Insert(m, r);
      assert Combine(rs).value.order == if d in m.order then m.order else m.order + [d];
      OrderStep(rs, m.order);
    }
  }

  // ---------------------------------------------------------------------------
  // Failure

  /** The key whose absence makes record `k` abort the merge, if any. */
  function FailKey(rs: seq<Record>, k: nat): Option<string>
    requires k < |rs|
  {
    if rs[k].domain.None? then Some("domain")
    else
      var c := Contributors(rs[..k], rs[k].domain.value);
      if c == [] then None
      else if c[0].signals.None? then Some("signals")
      else if c[0].source.None? then Some("source")
      else None
  }

  lemma FailKeyOfPrefix(rs: seq<Record>, k: nat)
    requires k < |rs| - 1
    ensures FailKey(rs[..|rs| - 1], k) == FailKey(rs, k)
  {
    assert rs[..|rs| - 1][..k] == rs[..k];
    assert rs[..|rs| - 1][k] == rs[k];
  }

  /** The last record aborts a fold that had succeeded so far exactly when its `FailKey` says so. */
  lemma InsertFails(rs: seq<Record>)
    requires rs != [] && Combine(rs[..|rs| - 1]).Ok?
    ensures Combine(rs).Err? <==> FailKey(rs, |rs| - 1).Some?
    ensures Combine(rs).Err? ==> FailKey(rs, |rs| - 1) == Some(Combine(rs).error.key)
  {
    var init, r := rs[..|rs| - 1], rs[|rs| - 1];
    var m := Combine(init).value;
    assert Combine(rs) == Insert(m, r);
    assert rs[..|init|] == init;
    if r.domain.Some? {
      var d := r.domain.value;
      CombineGroups(init);
      var c := Contributors(init, d);
      if c != [] {
        MergeGroupFirstWins(c);
        AbsorbPolicy(m.table[d], r);
        assert Insert(m, r).Err? <==> Absorb(m.table[d], r).Err?;
      }
    }
  }

  /**
    The fold fails exactly when some record lacks a domain, or repeats a
    domain whose first record lacks `signals` or `source`; the error is the
    `KeyError` of the first such record.
   */
  lemma {:induction false} CombineFails(rs: seq<Record>)
    ensures Combine(rs).Err? <==> exists k :: 0 <= k < |rs| && FailKey(rs, k).Some?
    ensures Combine(rs).Err? ==>
      exists k :: 0 <= k < |rs| && FailKey(rs, k) == Some(Combine(rs).error.key)
        && forall j :: 0 <= j < k ==> FailKey(rs, j).None?
  {
    if rs != [] {
      var init := rs[..|rs| - 1];
      CombineFails(init);
      forall k | 0 <= k < |init|
        ensures FailKey(rs, k) == FailKey(init, k)
      {
        FailKeyOfPrefix(rs, k);
      }
      if Combine(init).Err? {
        assert Combine(rs) == Combine(init);
      } else {
        InsertFails(rs);
      }
    }
  }

  // ---------------------------------------------------------------------------
  // The output of merge_results

  /** Each output record is the merge of the records of its domain. */
  lemma OutputGroups(sources: seq<seq<Record>>, i: nat)
    requires MergeSpec(sources).Ok? && i < |MergeSpec(sources).value|
    ensures MergeSpec(sources).value[i].domain.Some?
    ensures Seen(Flatten(sources), DomainOf(MergeSpec(sources).value[i]))
    ensures MergeGroup(Contributors(Flatten(sources), DomainOf(MergeSpec(sources).value[i]))) == Ok(MergeSpec(sources).value[i])
    ensures MergeSpec(sources).value[i].domain == Some(Combine(Flatten(sources)).value.order[i])
  {
    var rs := Flatten(sources);
    var m := Combine(rs).value;
    CombineGroups(rs);
    var d := m.order[i];
    var c := Contributors(rs, d);
    MergeGroupFirstWins(c);
    assert c[0].domain == Some(d);
  }

  /**
    Uniqueness and order: one output record per distinct domain of the input
    (the empty domain included), listed in the order in which each domain was
    first seen across the concatenated sources.
   */
  lemma MergeOneRecordPerDomain(sources: seq<seq<Record>>)
    requires MergeSpec(sources).Ok?
    ensures var out, rs := MergeSpec(sources).value, Flatten(sources);
      forall i :: 0 <= i < |out| ==> out[i].domain.Some? && Seen(rs, DomainOf(out[i]))
    ensures var out := MergeSpec(sources).value;
      forall i, j :: 0 <= i < j < |out| ==> out[i].domain != out[j].domain
    ensures var out, rs := MergeSpec(sources).value, Flatten(sources);
      forall k :: 0 <= k < |rs| ==> Lists(out, rs[k].domain)
    ensures var out, rs := MergeSpec(sources).value, Flatten(sources);
      forall i, j :: 0 <= i < j < |out| ==> FirstSeen(rs, DomainOf(out[i])) < FirstSeen(rs, DomainOf(out[j]))
  {
    var rs := Flatten(sources);
    var o := Combine(rs).value.order;
    CombineOrder(rs);
    OutputDomains(sources);
    EveryRecordHasDomain(rs);
    OneRecordPerKey(rs, o, MergeSpec(sources).value);
    EveryKeyListed(rs, o, MergeSpec(sources).value);
  }

  /** Records listed one per key of `o` carry distinct domains, ordered by first sighting. */
  lemma OneRecordPerKey(rs: seq<Record>, o: seq<string>, out: seq<Record>)
    requires ListsByFirstSeen(rs, o)
    requires |out| == |o| && forall i :: 0 <= i < |out| ==> out[i].domain == Some(o[i])
    ensures forall i :: 0 <= i < |out| ==> out[i].domain.Some? && Seen(rs, DomainOf(out[i]))
    ensures forall i, j :: 0 <= i < j < |out| ==> FirstSeen(rs, DomainOf(out[i])) < FirstSeen(rs, DomainOf(out[j]))
    ensures forall i, j :: 0 <= i < j < |out| ==> out[i].domain != out[j].domain
  {
    forall i | 0 <= i < |out|
      ensures DomainOf(out[i]) == o[i] && Seen(rs, o[i])
    {
      assert o[i] in o;
    }
  }

  /** Records listed one per key of `o` cover every domain of `rs`. */
  lemma EveryKeyListed(rs: seq<Record>, o: seq<string>, out: seq<Record>)
    requires ListsByFirstSeen(rs, o)
    requires |out| == |o| && forall i :: 0 <= i < |out| ==> out[i].domain == Some(o[i])
    requires forall k :: 0 <= k < |rs| ==> rs[k].domain.Some?
    ensures forall k :: 0 <= k < |rs| ==> Lists(out, rs[k].domain)
  {
    forall k | 0 <= k < |rs|
      ensures Lists(out, rs[k].domain)
    {
      var i := KeyIndex(rs, o, k);
      assert out[i].domain == rs[k].domain;
    }
  }

  /** Where the domain of record `k` stands in `o`. */
  lemma KeyIndex(rs: seq<Record>, o: seq<string>, k: nat) returns (i: nat)
    requires ListsByFirstSeen(rs, o)
    requires k < |rs| && rs[k].domain.Some?
    ensures i < |o| && Some(o[i]) == rs[k].domain
  {
    assert Seen(rs, rs[k].domain.value);
    i :| 0 <= i < |o| && o[i] == rs[k].domain.value;
  }

  /** The output lists the fold's keys: record `i` has the `i`-th key as its domain. */
  lemma OutputDomains(sources: seq<seq<Record>>)
    requires MergeSpec(sources).Ok?
    ensures |MergeSpec(sources).value| == |Combine(Flatten(sources)).value.order|
    ensures forall i :: 0 <= i < |MergeSpec(sources).value| ==>
      MergeSpec(sources).value[i].domain == Some(Combine(Flatten(sources)).value.order[i])
  {
    forall i | 0 <= i < |MergeSpec(sources).value|
      ensures MergeSpec(sources).value[i].domain == Some(Combine(Flatten(sources)).value.order[i])
    {
      OutputGroups(sources, i);
    }
  }

  /** A fold that succeeds has met no record without a domain. */
  lemma EveryRecordHasDomain(rs: seq<Record>)
    requires Combine(rs).Ok?
    ensures forall k :: 0 <= k < |rs| ==> rs[k].domain.Some?
  {
    CombineFails(rs);
    forall k | 0 <= k < |rs|
      ensures rs[k].domain.Some?
    {
      assert FailKey(rs, k).None?;
    }
  }

  /**
    First writer wins: company name, domain, revenue, employee count, industry
    and contacts of each output record are those of the first record seen
    with its domain.
   */
  lemma MergeFirstWriterWins(sources: seq<seq<Record>>, i: nat)
    requires MergeSpec(sources).Ok? && i < |MergeSpec(sources).value|
    ensures var out, rs := MergeSpec(sources).value, Flatten(sources);
      && Seen(rs, DomainOf(out[i]))
      && Frozen(out[i]) == Frozen(rs[FirstSeen(rs, DomainOf(out[i]))])
  {
    OutputGroups(sources, i);
    var d := DomainOf(MergeSpec(sources).value[i]);
    MergeGroupFirstWins(Contributors(Flatten(sources), d));
    FirstContributor(Flatten(sources), d);
  }

  /**
    Signals of an output record: the key-wise overwrite of the signals of its
    domain's records in processing order.
   */
  lemma MergeSignalsOverwrite(sources: seq<seq<Record>>, i: nat, key: string)
    requires MergeSpec(sources).Ok? && i < |MergeSpec(sources).value|
    ensures var out := MergeSpec(sources).value;
      var c := Contributors(Flatten(sources), DomainOf(out[i]));
      && (key in SignalsOf(out[i]) <==> exists j :: 0 <= j < |c| && key in SignalsOf(c[j]))
      && (key in SignalsOf(out[i]) ==>
            exists j :: 0 <= j < |c| && key in SignalsOf(c[j])
              && SignalsOf(out[i])[key] == SignalsOf(c[j])[key]
              && forall j' :: j < j' < |c| ==> key !in SignalsOf(c[j']))
  {
    OutputGroups(sources, i);
    MergeGroupSignals(Contributors(Flatten(sources), DomainOf(MergeSpec(sources).value[i])), key);
  }

  /**
    Sources of an output record: verbatim when its domain was seen once,
    otherwise each source named by the domain's records, once.
   */
  lemma MergeSourceUnion(sources: seq<seq<Record>>, i: nat)
    requires MergeSpec(sources).Ok? && i < |MergeSpec(sources).value|
    ensures var out := MergeSpec(sources).value;
      var c := Contributors(Flatten(sources), DomainOf(out[i]));
      && c != []
      && (|c| == 1 ==> out[i].source == c[0].source)
      && (|c| > 1 ==> out[i].source.Some? && Distinct(SourcesOf(out[i])))
      && (|c| > 1 ==> forall x :: x in SourcesOf(out[i]) <==> exists j :: 0 <= j < |c| && x in SourcesOf(c[j]))
  {
    OutputGroups(sources, i);
    MergeGroupSources(Contributors(Flatten(sources), DomainOf(MergeSpec(sources).value[i])));
  }

  /**
    Funding stage of an output record: that of the last record of its domain
    that carries one, absent when none does.
   */
  lemma MergeFundingStageLastWins(sources: seq<seq<Record>>, i: nat)
    requires MergeSpec(sources).Ok? && i < |MergeSpec(sources).value|
    ensures var out := MergeSpec(sources).value;
      var c := Contributors(Flatten(sources), DomainOf(out[i]));
      && (out[i].fundingStage.Some? <==> exists j :: 0 <= j < |c| && c[j].fundingStage.Some?)
      && (out[i].fundingStage.Some? ==>
            exists j :: 0 <= j < |c| && c[j].fundingStage == out[i].fundingStage
              && forall j' :: j < j' < |c| ==> c[j'].fundingStage.None?)
  {
    OutputGroups(sources, i);
    MergeGroupFundingStage(Contributors(Flatten(sources), DomainOf(MergeSpec(sources).value[i])));
  }

  /**
    The merge aborts, with no partial result, exactly when some record lacks a
    domain or repeats a domain whose first record lacks `signals` or `source`;
    it raises the `KeyError` of the first such record.
   */
  lemma MergeFails(sources: seq<seq<Record>>)
    ensures MergeSpec(sources).Err? <==> exists k :: 0 <= k < |Flatten(sources)| && FailKey(Flatten(sources), k).Some?
    ensures MergeSpec(sources).Err? ==>
      exists k :: 0 <= k < |Flatten(sources)| && FailKey(Flatten(sources), k) == Some(MergeSpec(sources).error.key)
        && forall j :: 0 <= j < k ==> FailKey(Flatten(sources), j).None?
  {
    CombineFails(Flatten(sources));
  }

  /** A record without a domain aborts the whole merge. */
  lemma MissingDomainAborts(sources: seq<seq<Record>>, k: nat)
    requires k < |Flatten(sources)| && Flatten(sources)[k].domain.None?
    ensures MergeSpec(sources).Err?
  {
    MergeFails(sources);
    assert FailKey(Flatten(sources), k).Some?;
  }

  /** An empty source, wherever it stands, changes nothing. */
  lemma EmptySourceIgnored(sources: seq<seq<Record>>, i: nat)
    requires i <= |sources|
    ensures MergeSpec(sources[..i] + [[]] + sources[i..]) == MergeSpec(sources)
  {
    assert sources[..i] + sources[i..] == sources;
    FlattenSkipsEmpty(sources[..i], sources[i..]);
  }

  lemma FlattenSkipsEmpty(front: seq<seq<Record>>, back: seq<seq<Record>>)
    ensures Flatten(front + [[]] + back) == Flatten(front + back)
  {
    var none: seq<seq<Record>> := [[]];
    var f := Flatten(front);
    assert Flatten(none) == [];
    FlattenAppend(front, none);
    assert Flatten(front + none) == f + [] == f;
    FlattenAppend(front + none, back);
    FlattenAppend(front, back);
  }

  /**
    Records that all carry the empty domain, such as the job-postings records
    (main.py:63-68), collapse into a single output record. Only the first of
    them is ever read as a stored record, so only it needs `signals` and
    `source`.
   */
  lemma EmptyDomainsCollide(sources: seq<seq<Record>>)
    requires Flatten(sources) != []
    requires forall k :: 0 <= k < |Flatten(sources)| ==> Flatten(sources)[k].domain == Some("")
    requires Flatten(sources)[0].signals.Some? && Flatten(sources)[0].source.Some?
    ensures MergeSpec(sources).Ok? && |MergeSpec(sources).value| == 1
  {
    var rs := Flatten(sources);
    MergeFails(sources);
    forall k | 0 <= k < |rs|
      ensures FailKey(rs, k).None?
    {
      var prefix := rs[..k];
      if Seen(prefix, "") {
        FirstContributor(prefix, "");
        assert FirstSeen(prefix, "") == 0;
        assert prefix[0] == rs[0];
      }
    }
    MergeOneRecordPerDomain(sources);
    var out := MergeSpec(sources).value;
    assert Lists(out, rs[0].domain);
    assert forall i :: 0 <= i < |out| ==> out[i].domain == out[0].domain && i == 0;
    assert out[|out| - 1].domain == out[0].domain;
  }
}
