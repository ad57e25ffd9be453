/**
  Merging a source list with itself (`merge_results(s, s)`, main.py:74-88).

  When the records of `s` carry distinct domains, `merge_results(s)` returns
  `s` unchanged, and `merge_results(s, s)` returns the same records again with
  each `source` list de-duplicated, provided every record carries `signals` and
  `source`. Without those keys the second pass raises (main.py:83-84), as
  `MergeTwiceNeedsSignals` shows on a single record.
 */
module MergeTwice {
  import opened Records
  import opened Merge

  /** Every record has a domain, and no two records share one. */
  predicate DistinctDomains(s: seq<Record>) {
    && (forall i :: 0 <= i < |s| ==> s[i].domain.Some?)
    && (forall i, j :: 0 <= i < j < |s| ==> s[i].domain != s[j].domain)
  }

  /** The domains of the records, in order. */
  function Domains(s: seq<Record>): (ds: seq<string>)
    requires forall i :: 0 <= i < |s| ==> s[i].domain.Some?
    ensures |ds| == |s| && forall i :: 0 <= i < |s| ==> s[i].domain == Some(ds[i])
  {
    seq(|s|, i requires 0 <= i < |s| => s[i].domain.value)
  }

  /** `m` lists the domains of `s` in order and stores `vals[k]` for the `k`-th of them. */
  ghost predicate Stores(m: Combined, s: seq<Record>, vals: seq<Record>) {
    && (forall i :: 0 <= i < |s| ==> s[i].domain.Some?)
    && m.order == Domains(s) && |vals| == |s|
    && (forall k :: 0 <= k < |s| ==> Domains(s)[k] in m.table && m.table[Domains(s)[k]] == vals[k])
  }

  /** One pass over records with distinct domains stores each record as it is. */
  lemma {:induction false} OnePass(s: seq<Record>)
    requires DistinctDomains(s)
    ensures Combine(s).Ok? && Stores(Combine(s).value, s, s)
  {
    if s != [] {
      var init, r := s[..|s| - 1], s[|s| - 1];
      OnePass(init);
      assert init + [r] == s;
      CombineSnoc(init, r);
      InsertNew(Combine(init).value, init, r);
    }
  }

  /** A record whose domain is new is appended and stored as it is. */
  lemma InsertNew(m: Combined, s: seq<Record>, r: Record)
    requires DistinctDomains(s + [r]) && m.Valid() && Stores(m, s, s)
    ensures Insert(m, r).Ok? && Stores(Insert(m, r).value, s + [r], s + [r])
  {
    var s', d := s + [r], r.domain.value;
    assert s'[|s|] == r;
    forall k | 0 <= k < |s|
      ensures Domains(s)[k] != d
    {
      assert s'[k] == s[k];
    }
    assert d !in m.table;
    assert Domains(s') == Domains(s) + [d];
  }

  /** The records stored after the second pass has met the first `j` records again. */
  function Twice(s: seq<Record>, j: nat): (vals: seq<Record>)
    requires forall i :: 0 <= i < |s| ==> s[i].signals.Some? && s[i].source.Some?
    ensures |vals| == |s|
  {
    seq(|s|, k requires 0 <= k < |s| => if k < j then Absorb(s[k], s[k]).value else s[k])
  }

  /** Meeting record `j` again folds the stored copy with itself. */
  lemma InsertAgain(m: Combined, s: seq<Record>, vals: seq<Record>, j: nat)
    requires DistinctDomains(s) && Stores(m, s, vals)
    requires j < |s| && vals[j] == s[j] && s[j].signals.Some? && s[j].source.Some?
    ensures Insert(m, s[j]).Ok? && Stores(Insert(m, s[j]).value, s, vals[j := Absorb(s[j], s[j]).value])
  {
    var d := Domains(s)[j];
    var t := m.table[d := Absorb(s[j], s[j]).value];
    assert Insert(m, s[j]) == Ok(Combined(m.order, t));
    forall k | 0 <= k < |s| && k != j
      ensures Domains(s)[k] != d
    {
    }
  }

  /** A merged record folded with itself again keeps everything but the order of its sources. */
  lemma AbsorbSelf(x: Record)
    requires x.signals.Some? && x.source.Some?
    ensures Absorb(x, x).Ok?
    ensures Frozen(Absorb(x, x).value) == Frozen(x)
    ensures Absorb(x, x).value.signals == x.signals && Absorb(x, x).value.fundingStage == x.fundingStage
    ensures Absorb(x, x).value.source.Some? && Distinct(SourcesOf(Absorb(x, x).value))
    ensures forall y :: y in SourcesOf(Absorb(x, x).value) <==> y in SourcesOf(x)
  {
    AbsorbPolicy(x, x);
    assert x.signals.value + x.signals.value == x.signals.value;
  }

  /**
    After the whole of `s` and the first `j` records of its copy, the first `j`
    domains hold their record folded with itself; the rest are untouched.
   */
  lemma {:induction false} SecondPass(s: seq<Record>, j: nat)
    requires DistinctDomains(s) && j <= |s|
    requires forall i :: 0 <= i < |s| ==> s[i].signals.Some? && s[i].source.Some?
    ensures Combine(s + s[..j]).Ok? && Stores(Combine(s + s[..j]).value, s, Twice(s, j))
  {
    if j == 0 {
      assert s + s[..0] == s;
      OnePass(s);
      assert Twice(s, 0) == s;
    } else {
      SecondPass(s, j - 1);
      SecondPassStep(s, j, Combine(s + s[..j - 1]).value);
    }
  }

  lemma SecondPassStep(s: seq<Record>, j: nat, m: Combined)
    requires DistinctDomains(s) && 0 < j <= |s|
    requires forall i :: 0 <= i < |s| ==> s[i].signals.Some? && s[i].source.Some?
    requires Combine(s + s[..j - 1]) == Ok(m) && Stores(m, s, Twice(s, j - 1))
    ensures Combine(s + s[..j]).Ok? && Stores(Combine(s + s[..j]).value, s, Twice(s, j))
  {
    AppendOneMore(s, s, j - 1);
    CombineSnoc(s + s[..j - 1], s[j - 1]);
    InsertAgain(m, s, Twice(s, j - 1), j - 1);
    TwiceStep(s, j);
  }

  lemma AppendOneMore<T>(a: seq<T>, b: seq<T>, j: nat)
    requires j < |b|
    ensures a + b[..j + 1] == (a + b[..j]) + [b[j]]
  {
    assert b[..j + 1] == b[..j] + [b[j]];
  }

  lemma TwiceStep(s: seq<Record>, j: nat)
    requires 0 < j <= |s|
    requires forall i :: 0 <= i < |s| ==> s[i].signals.Some? && s[i].source.Some?
    ensures Twice(s, j - 1)[j - 1 := Absorb(s[j - 1], s[j - 1]).value] == Twice(s, j)
  {
  }

  /** The output of a dictionary that stores `vals` for the records of `s`. */
  lemma StoredValues(m: Combined, s: seq<Record>, vals: seq<Record>)
    requires m.Valid() && Stores(m, s, vals)
    ensures m.Values() == vals
  {
  }

  /** The records of the sources `[s]` and `[s, s]`. */
  lemma FlattenOnceTwice(s: seq<Record>)
    ensures Flatten([s]) == s && Flatten([s, s]) == s + s
  {
    var none: seq<seq<Record>> := [];
    assert [s][..0] == none;
    assert [s, s][..1] == [s];
  }

  /** A single source whose records carry distinct domains is returned unchanged. */
  lemma MergeDistinctUnchanged(s: seq<Record>)
    requires DistinctDomains(s)
    ensures MergeSpec([s]) == Ok(s)
  {
    FlattenOnceTwice(s);
    OnePass(s);
    StoredValues(Combine(s).value, s, s);
  }

  /**
    Merging a source with itself gives the records of merging it once: same
    length, same order, every field the same except that each `source` list is
    de-duplicated (same members, each once).
   */
  lemma MergeTwiceSameAsOnce(s: seq<Record>)
    requires DistinctDomains(s)
    requires forall i :: 0 <= i < |s| ==> s[i].signals.Some? && s[i].source.Some?
    ensures var once, twice := MergeSpec([s]), MergeSpec([s, s]);
      && once == Ok(s) && twice.Ok? && |twice.value| == |once.value|
      && forall i :: 0 <= i < |s| ==>
           && Frozen(twice.value[i]) == Frozen(once.value[i])
           && twice.value[i].signals == once.value[i].signals
           && twice.value[i].fundingStage == once.value[i].fundingStage
           && twice.value[i].source.Some? && Distinct(SourcesOf(twice.value[i]))
           && (forall x :: x in SourcesOf(twice.value[i]) <==> x in SourcesOf(once.value[i]))
  {
    MergeDistinctUnchanged(s);
    MergeTwiceValues(s);
    TwiceKeepsFields(s);
  }

  /** Each record folded with itself keeps everything but the order of its sources. */
  lemma TwiceKeepsFields(s: seq<Record>)
    requires forall i :: 0 <= i < |s| ==> s[i].signals.Some? && s[i].source.Some?
    ensures var twice := Twice(s, |s|);
      forall i :: 0 <= i < |s| ==>
        && Frozen(twice[i]) == Frozen(s[i])
        && twice[i].signals == s[i].signals
        && twice[i].fundingStage == s[i].fundingStage
        && twice[i].source.Some? && Distinct(SourcesOf(twice[i]))
        && (forall x :: x in SourcesOf(twice[i]) <==> x in SourcesOf(s[i]))
  {
    var twice := Twice(s, |s|);
    forall i | 0 <= i < |s|
      ensures Frozen(twice[i]) == Frozen(s[i])
      ensures twice[i].signals == s[i].signals && twice[i].fundingStage == s[i].fundingStage
      ensures twice[i].source.Some? && Distinct(SourcesOf(twice[i]))
      ensures forall x :: x in SourcesOf(twice[i]) <==> x in SourcesOf(s[i])
    {
      assert twice[i] == Absorb(s[i], s[i]).value;
      AbsorbSelf(s[i]);
    }
  }

  /** Merging `s` with itself stores every record folded with itself. */
  lemma MergeTwiceValues(s: seq<Record>)
    requires DistinctDomains(s)
    requires forall i :: 0 <= i < |s| ==> s[i].signals.Some? && s[i].source.Some?
    ensures MergeSpec([s, s]) == Ok(Twice(s, |s|))
  {
    FlattenOnceTwice(s);
    assert s + s[..|s|] == s + s;
    SecondPass(s, |s|);
    StoredValues(Combine(s + s).value, s, Twice(s, |s|));
  }

  /**
    The condition on `signals` cannot be dropped: a single record without
    `signals` merges alone, but merging its source with itself raises
    `KeyError("signals")` at the repeat (main.py:83).
   */
  lemma MergeTwiceNeedsSignals()
    ensures var r := Record(None, Some("a.com"), None, None, None, None, None, None, Some(["X"]));
      MergeSpec([[r]]) == Ok([r]) && MergeSpec([[r], [r]]) == Err(KeyError("signals"))
  {
    var r := Record(None, Some("a.com"), None, None, None, None, None, None, Some(["X"]));
    MergeDistinctUnchanged([r]);
    FlattenOnceTwice([r]);
    var e: seq<Record> := [];
    CombineSnoc(e, r);
    assert e + [r] == [r];
    CombineSnoc([r], r);
  }
}
