/**
  The two hard-coded adapters of the pipeline (`fetch_from_apollo`,
  main.py:14-29, and `fetch_from_crunchbase`, main.py:31-40) as concrete
  inputs: what the merger makes of them, and how the merged record they
  share scores.
 */
module MockData {
  import opened Records
  import opened Merge
  import opened Scoring

  function Apollo(): seq<Record> {
    [ Record(Some("DataIQ Inc"), Some("dataiq.com"), Some(75000000), Some(200), Some("Software"),
             Some([Contact("Sarah Green", "VP Data Science", "sarah@dataiq.com", "linkedin.com/in/sarahgreen")]),
             None, Some(map["new_funding" := true]), Some(["Apollo"])),
      Record(Some("FinWise Tech"), Some("finwise.ai"), Some(40000000), Some(150), Some("FinTech"),
             Some([Contact("David Miller", "Head of AI", "david@finwise.ai", "linkedin.com/in/davidm")]),
             None, Some(map["new_funding" := false]), Some(["Apollo"])) ]
  }

  function Crunchbase(): seq<Record> {
    [ Record(Some("DataIQ Inc"), Some("dataiq.com"), None, None, None, None,
             Some("Series B"), Some(map["recent_hiring" := true]), Some(["Crunchbase"])),
      Record(Some("AutoAI Corp"), Some("autoai.com"), None, None, None, None,
             Some("Seed"), Some(map["recent_hiring" := false]), Some(["Crunchbase"])) ]
  }

  /**
    DataIQ as both adapters report it, merged: Apollo's record with
    Crunchbase's funding stage, both signals, and both adapter names as its
    sources, in an order the program leaves to `set`.
   */
  predicate MergedDataIQ(r: Record) {
    && Frozen(r) == Frozen(Apollo()[0])
    && r.fundingStage == Some("Series B")
    && r.signals == Some(map["new_funding" := true, "recent_hiring" := true])
    && r.source.Some? && Distinct(r.source.value)
    && "Apollo" in r.source.value && "Crunchbase" in r.source.value
    && (forall x :: x in r.source.value ==> x == "Apollo" || x == "Crunchbase")
  }

  /**
    Merging the Apollo and Crunchbase records gives three companies in
    first-seen order; DataIQ, reported by both, keeps Apollo's firmographics
    and gains Crunchbase's funding stage, hiring signal and source name.
   */
  lemma MockMerge()
    ensures var out := MergeSpec([Apollo(), Crunchbase()]);
      && out.Ok? && |out.value| == 3
      && MergedDataIQ(out.value[0]) && out.value[1] == Apollo()[1] && out.value[2] == Crunchbase()[1]
  {
    MockFlatten();
    MockAbsorb();
    MockCombine();
    MockValues(Absorb(Apollo()[0], Crunchbase()[0]).value);
  }

  /** The fold over all four records stores the DataIQ update and the two single records. */
  lemma MockCombine()
    ensures Absorb(Apollo()[0], Crunchbase()[0]).Ok?
    ensures Combine(Apollo() + Crunchbase()) == Ok(AfterAll(Absorb(Apollo()[0], Crunchbase()[0]).value))
  {
    var a, c := Apollo(), Crunchbase();
    MockApollo();
    MockAbsorb();
    var merged := Absorb(a[0], c[0]).value;
    var m2 := AfterApollo();
    var m3 := Combined(m2.order, m2.table["dataiq.com" := merged]);
    CombineSnoc(a, c[0]);
    assert Combine(a + [c[0]]) == Ok(m3);
    CombineSnoc(a + [c[0]], c[1]);
    assert a + [c[0]] + [c[1]] == a + c;
  }

  /** The dictionary after all four records, with `merged` stored for DataIQ. */
  function AfterAll(merged: Record): Combined {
    var m2 := AfterApollo();
    var m3 := Combined(m2.order, m2.table["dataiq.com" := merged]);
    Combined(m3.order + ["autoai.com"], m3.table["autoai.com" := Crunchbase()[1]])
  }

  lemma MockValues(merged: Record)
    ensures AfterAll(merged).Valid() && AfterAll(merged).Values() == [merged, Apollo()[1], Crunchbase()[1]]
  {
    var m := AfterAll(merged);
    assert m.order == ["dataiq.com", "finwise.ai", "autoai.com"];
    assert m.table.Keys == {"dataiq.com", "finwise.ai", "autoai.com"};
  }

  /** The dictionary after the Apollo records. */
  function AfterApollo(): Combined {
    var m1 := Combined(["dataiq.com"], map["dataiq.com" := Apollo()[0]]);
    Combined(m1.order + ["finwise.ai"], m1.table["finwise.ai" := Apollo()[1]])
  }

  /** The two Apollo records carry different domains, so both are stored as they are. */
  lemma MockApollo()
    ensures Combine(Apollo()) == Ok(AfterApollo())
  {
    var a := Apollo();
    var e: seq<Record> := [];
    var m0 := Combined([], map[]);
    CombineSnoc(e, a[0]);
    assert e + [a[0]] == [a[0]];
    assert m0.order + ["dataiq.com"] == ["dataiq.com"];
    assert m0.table["dataiq.com" := a[0]] == map["dataiq.com" := a[0]];
    CombineSnoc([a[0]], a[1]);
    assert [a[0]] + [a[1]] == a;
  }

  lemma MockFlatten()
    ensures Flatten([Apollo(), Crunchbase()]) == Apollo() + Crunchbase()
  {
    var none: seq<seq<Record>> := [];
    assert [Apollo(), Crunchbase()][..1] == [Apollo()];
    assert [Apollo()][..0] == none;
  }

  /** Crunchbase's DataIQ record folded into Apollo's. */
  lemma MockAbsorb()
    ensures Absorb(Apollo()[0], Crunchbase()[0]).Ok? && MergedDataIQ(Absorb(Apollo()[0], Crunchbase()[0]).value)
  {
    AbsorbPolicy(Apollo()[0], Crunchbase()[0]);
    assert map["new_funding" := true] + map["recent_hiring" := true]
        == map["new_funding" := true, "recent_hiring" := true];
  }

  /** The ICP the worked score uses: software companies running AWS. */
  function SoftwareOnAws(): Icp {
    Icp(Some(["Software"]), Some(IcpSignals(Some(["AWS"]))))
  }

  /**
    The merged DataIQ record meets all four indicators for that ICP and
    scores the full 1.0, though neither adapter's record alone has both the
    funding and the hiring signal: Apollo's scores 0.8.
   */
  lemma MockTopScore()
    ensures MergeSpec([Apollo(), Crunchbase()]).Ok? && |MergeSpec([Apollo(), Crunchbase()]).value| == 3
    ensures Confidence(MergeSpec([Apollo(), Crunchbase()]).value[0], SoftwareOnAws()) == Ok(1.0)
    ensures Confidence(Apollo()[0], SoftwareOnAws()) == Ok(0.8)
  {
    MockMerge();
    MergedDataIQScores(MergeSpec([Apollo(), Crunchbase()]).value[0]);
  }

  /** Any record merged from both DataIQ reports scores 1.0, Apollo's report alone 0.8. */
  lemma MergedDataIQScores(d: Record)
    requires MergedDataIQ(d)
    ensures Confidence(d, SoftwareOnAws()) == Ok(1.0)
    ensures Confidence(Apollo()[0], SoftwareOnAws()) == Ok(0.8)
  {
    var icp := SoftwareOnAws();
    assert d.industry == Some("Software") by {
      assert Frozen(d).industry == Frozen(Apollo()[0]).industry;
    }
    assert Text.OccursAt(Text.Lower("Software"), Text.Lower("Software"), 0);
    Text.SubstringAt(Text.Lower("Software"), Text.Lower("Software"));
    assert Text.OccursAt("AWS", "AWS", 0);
    Text.SubstringAt("AWS", "AWS");
    assert IndustryMatch(d, icp) && IndustryMatch(Apollo()[0], icp);
    assert TechMatch(icp) == Ok(true);
  }
}
