/** Validator runs on concrete data: the example workbook that
    `get_example_lci_file` writes (bioethanol from sugarcane: fermentation,
    then distillation), and an exchange of an unknown activity. */
module Scenarios {
  import opened Values
  import opened Lci
  import opened Validator
  import opened Assembler
  import opened Diagram

  const Fermentation := Activity("FERM_01", "Fermentation", "kg", "BR", Num(1.0))
  const Distillation := Activity("DIST_01", "Distillation", "L", "BR", Num(1.0))

  // The rows of the example's 'Exchanges' sheet.
  const F0 := Exchange("FERM_01", "production", "Fermented mass", Num(1.0), "kg", None, None)
  const F1 := Exchange("FERM_01", "input", "Sugarcane juice", Num(1.8), "kg", Some("material"), Some(Num(0.1)))
  const F2 := Exchange("FERM_01", "input", "Yeast", Num(0.05), "kg", Some("material"), Some(Num(0.005)))
  const F3 := Exchange("FERM_01", "input", "Water", Num(5.0), "kg", Some("material"), Some(Num(0.25)))
  const F4 := Exchange("FERM_01", "input", "Electricity", Num(2.5), "kWh", Some("energy"), Some(Num(0.15)))
  const F5 := Exchange("FERM_01", "emission", "CO2, biogenic", Num(0.9), "kg", Some("air"), Some(Num(0.05)))
  const F6 := Exchange("FERM_01", "emission", "Wastewater", Num(4.5), "kg", Some("water"), Some(Num(0.3)))
  const D0 := Exchange("DIST_01", "production", "Crude ethanol", Num(1.0), "L", None, None)
  const D1 := Exchange("DIST_01", "input", "Fermented mass", Num(1.2), "kg", Some("material"), Some(Num(0.08)))
  const D2 := Exchange("DIST_01", "input", "Heat (steam)", Num(15.0), "MJ", Some("energy"), Some(Num(1.0)))
  const D3 := Exchange("DIST_01", "emission", "Ethanol vapor", Num(0.02), "kg", Some("air"), Some(Num(0.003)))

  const FermentationRows := [F0, F1, F2, F3, F4, F5, F6]
  const DistillationRows := [D0, D1, D2, D3]

  const ExampleActivities := [Fermentation, Distillation]
  const ExampleExchanges := FermentationRows + DistillationRows

  /** Exchanges of other activities add no mass. */
  lemma {:induction false} OtherActivitiesWeighNothing(code: string, xs: seq<Exchange>)
    requires forall k :: 0 <= k < |xs| ==> xs[k].activityCode != code
    ensures InputMass(code, xs) == Num(0.0) && OutputMass(code, xs) == Num(0.0)
  {
    if xs != [] {
      OtherActivitiesWeighNothing(code, xs[1..]);
    }
  }

  /** The input masses of two lists of exchanges add up. */
  lemma {:induction false} InputOfConcat(code: string, xs: seq<Exchange>, ys: seq<Exchange>)
    ensures InputMass(code, xs + ys) == Add(InputMass(code, xs), InputMass(code, ys))
  {
    if xs == [] {
      assert xs + ys == ys;
    } else {
      assert (xs + ys)[1..] == xs[1..] + ys;
      InputOfConcat(code, xs[1..], ys);
      AddAssociative(if MassInput(xs[0], code) then xs[0].amount else Num(0.0),
                     InputMass(code, xs[1..]), InputMass(code, ys));
    }
  }

  /** The output masses of two lists of exchanges add up. */
  lemma {:induction false} OutputOfConcat(code: string, xs: seq<Exchange>, ys: seq<Exchange>)
    ensures OutputMass(code, xs + ys) == Add(OutputMass(code, xs), OutputMass(code, ys))
  {
    if xs == [] {
      assert xs + ys == ys;
    } else {
      assert (xs + ys)[1..] == xs[1..] + ys;
      OutputOfConcat(code, xs[1..], ys);
      AddAssociative(if MassOutput(xs[0], code) then xs[0].amount else Num(0.0),
                     OutputMass(code, xs[1..]), OutputMass(code, ys));
    }
  }

  /** Which of distillation's rows count as mass: only the fermented-mass
      input (kg) and the ethanol-vapour emission (kg); the product is in
      litres and the steam in MJ. */
  lemma DistillationMassRows()
    ensures !MassInput(D0, "DIST_01") && MassInput(D1, "DIST_01")
    ensures !MassInput(D2, "DIST_01") && !MassInput(D3, "DIST_01")
    ensures !MassOutput(D0, "DIST_01") && !MassOutput(D1, "DIST_01")
    ensures !MassOutput(D2, "DIST_01") && MassOutput(D3, "DIST_01")
  {
  }

  /** The input mass of a suffix: its first exchange's share plus the rest. */
  lemma InputFrom(code: string, s: seq<Exchange>, k: nat)
    requires k < |s|
    ensures InputMass(code, s[k..])
         == Add(if MassInput(s[k], code) then s[k].amount else Num(0.0), InputMass(code, s[k + 1..]))
  {
    assert s[k..][1..] == s[k + 1..];
  }

  /** The output mass of a suffix: its first exchange's share plus the rest. */
  lemma OutputFrom(code: string, s: seq<Exchange>, k: nat)
    requires k < |s|
    ensures OutputMass(code, s[k..])
         == Add(if MassOutput(s[k], code) then s[k].amount else Num(0.0), OutputMass(code, s[k + 1..]))
  {
    assert s[k..][1..] == s[k + 1..];
  }

  /** Four exchanges of which only the second is a mass input weigh its
      amount as input. */
  lemma SecondIsInput(code: string, s: seq<Exchange>)
    requires |s| == 4
    requires !MassInput(s[0], code) && MassInput(s[1], code) && !MassInput(s[2], code) && !MassInput(s[3], code)
    ensures InputMass(code, s) == Add(s[1].amount, Num(0.0))
  {
    assert s[4..] == [];
    InputSkip(code, s, 3, Num(0.0));
    InputSkip(code, s, 2, Num(0.0));
    InputAdd(code, s, 1, Num(0.0));
    InputSkip(code, s, 0, Add(s[1].amount, Num(0.0)));
    assert s[0..] == s;
  }

  lemma InputSkip(code: string, s: seq<Exchange>, k: nat, rest: Float)
    requires k < |s| && !MassInput(s[k], code) && InputMass(code, s[k + 1..]) == rest
    ensures InputMass(code, s[k..]) == rest
  {
    InputFrom(code, s, k);
  }

  lemma InputAdd(code: string, s: seq<Exchange>, k: nat, rest: Float)
    requires k < |s| && MassInput(s[k], code) && InputMass(code, s[k + 1..]) == rest
    ensures InputMass(code, s[k..]) == Add(s[k].amount, rest)
  {
    InputFrom(code, s, k);
  }

  /** Four exchanges of which only the fourth is a mass output weigh its
      amount as output. */
  lemma FourthIsOutput(code: string, s: seq<Exchange>)
    requires |s| == 4
    requires !MassOutput(s[0], code) && !MassOutput(s[1], code) && !MassOutput(s[2], code) && MassOutput(s[3], code)
    ensures OutputMass(code, s) == Add(s[3].amount, Num(0.0))
  {
    assert s[4..] == [];
    OutputAdd(code, s, 3, Num(0.0));
    OutputSkip(code, s, 2, Add(s[3].amount, Num(0.0)));
    OutputSkip(code, s, 1, Add(s[3].amount, Num(0.0)));
    OutputSkip(code, s, 0, Add(s[3].amount, Num(0.0)));
    assert s[0..] == s;
  }

  lemma OutputSkip(code: string, s: seq<Exchange>, k: nat, rest: Float)
    requires k < |s| && !MassOutput(s[k], code) && OutputMass(code, s[k + 1..]) == rest
    ensures OutputMass(code, s[k..]) == rest
  {
    OutputFrom(code, s, k);
  }

  lemma OutputAdd(code: string, s: seq<Exchange>, k: nat, rest: Float)
    requires k < |s| && MassOutput(s[k], code) && OutputMass(code, s[k + 1..]) == rest
    ensures OutputMass(code, s[k..]) == Add(s[k].amount, rest)
  {
    OutputFrom(code, s, k);
  }

  /** Distillation's only mass input is 1.2 kg of fermented mass, its only
      mass output 0.02 kg of ethanol vapour. */
  lemma DistillationSums()
    ensures InputMass("DIST_01", DistillationRows) == Num(1.2)
    ensures OutputMass("DIST_01", DistillationRows) == Num(0.02)
  {
    DistillationMassRows();
    SecondIsInput("DIST_01", DistillationRows);
    FourthIsOutput("DIST_01", DistillationRows);
  }

  /** Every fermentation row belongs to fermentation. */
  lemma FermentationRowsOwnCode()
    ensures forall k :: 0 <= k < |FermentationRows| ==> FermentationRows[k].activityCode == "FERM_01"
  {
  }

  /** In the whole example, distillation weighs 1.2 kg in and 0.02 kg out. */
  lemma DistillationTotals()
    ensures InputMass("DIST_01", ExampleExchanges) == Num(1.2)
    ensures OutputMass("DIST_01", ExampleExchanges) == Num(0.02)
  {
    FermentationRowsOwnCode();
    assert "FERM_01" != "DIST_01" by {
      assert "FERM_01"[0] != "DIST_01"[0];
    }
    OtherActivitiesWeighNothing("DIST_01", FermentationRows);
    InputOfConcat("DIST_01", FermentationRows, DistillationRows);
    OutputOfConcat("DIST_01", FermentationRows, DistillationRows);
    DistillationSums();
  }

  /** So distillation's ratio, 1/60, is reported. */
  lemma ExampleMassBalance()
    ensures MassBalanceWarning(Distillation, ExampleExchanges)
         == Some(SuspiciousMassBalance("Distillation", 1.2, 0.02, 1.0 / 60.0))
  {
    DistillationTotals();
  }

  /** Which of fermentation's rows count as mass: the juice, yeast and
      water inputs (kg, not the electricity in kWh), and the product, the
      CO2 and the wastewater (all kg). */
  lemma FermentationMassRows()
    ensures !MassInput(F0, "FERM_01") && MassInput(F1, "FERM_01") && MassInput(F2, "FERM_01")
    ensures MassInput(F3, "FERM_01") && !MassInput(F4, "FERM_01") && !MassInput(F5, "FERM_01")
    ensures !MassInput(F6, "FERM_01")
    ensures MassOutput(F0, "FERM_01") && !MassOutput(F1, "FERM_01") && !MassOutput(F2, "FERM_01")
    ensures !MassOutput(F3, "FERM_01") && !MassOutput(F4, "FERM_01") && MassOutput(F5, "FERM_01")
    ensures MassOutput(F6, "FERM_01")
  {
  }

  /** Fermentation takes in 1.8 + 0.05 + 5.0 = 6.85 kg. */
  lemma FermentationInput()
    ensures InputMass("FERM_01", FermentationRows) == Num(6.85)
  {
    var s := FermentationRows;
    FermentationMassRows();
    assert s[7..] == [];
    InputSkip("FERM_01", s, 6, Num(0.0));
    InputSkip("FERM_01", s, 5, Num(0.0));
    InputSkip("FERM_01", s, 4, Num(0.0));
    InputAdd("FERM_01", s, 3, Num(0.0));
    InputAdd("FERM_01", s, 2, Num(5.0));
    InputAdd("FERM_01", s, 1, Num(5.05));
    InputSkip("FERM_01", s, 0, Num(6.85));
    assert s[0..] == s;
  }

  /** Fermentation puts out 1.0 + 0.9 + 4.5 = 6.4 kg. */
  lemma FermentationOutput()
    ensures OutputMass("FERM_01", FermentationRows) == Num(6.4)
  {
    var s := FermentationRows;
    FermentationMassRows();
    assert s[7..] == [];
    OutputAdd("FERM_01", s, 6, Num(0.0));
    OutputAdd("FERM_01", s, 5, Num(4.5));
    OutputSkip("FERM_01", s, 4, Num(5.4));
    OutputSkip("FERM_01", s, 3, Num(5.4));
    OutputSkip("FERM_01", s, 2, Num(5.4));
    OutputSkip("FERM_01", s, 1, Num(5.4));
    OutputAdd("FERM_01", s, 0, Num(5.4));
    assert s[0..] == s;
  }

  /** Every distillation row belongs to distillation. */
  lemma DistillationRowsOwnCode()
    ensures forall k :: 0 <= k < |DistillationRows| ==> DistillationRows[k].activityCode == "DIST_01"
  {
  }

  /** In the whole example, fermentation weighs 6.85 kg in and 6.4 kg out. */
  lemma FermentationTotals()
    ensures InputMass("FERM_01", ExampleExchanges) == Num(6.85)
    ensures OutputMass("FERM_01", ExampleExchanges) == Num(6.4)
  {
    DistillationRowsOwnCode();
    assert "DIST_01" != "FERM_01" by {
      assert "DIST_01"[0] != "FERM_01"[0];
    }
    OtherActivitiesWeighNothing("FERM_01", DistillationRows);
    InputOfConcat("FERM_01", FermentationRows, DistillationRows);
    OutputOfConcat("FERM_01", FermentationRows, DistillationRows);
    FermentationInput();
    FermentationOutput();
  }

  /** Fermentation's ratio, 6.4 / 6.85, lies within [0.3, 1.2]: no warning. */
  lemma FermentationBalanced()
    ensures MassBalanceWarning(Fermentation, ExampleExchanges) == None
  {
    FermentationTotals();
  }

  /** Check 4 on the example workbook warns about distillation alone. */
  lemma ExampleMassBalanceWarnings()
    ensures MassBalanceWarnings(ExampleActivities, ExampleExchanges)
         == [SuspiciousMassBalance("Distillation", 1.2, 0.02, 1.0 / 60.0)]
  {
    var warning := SuspiciousMassBalance("Distillation", 1.2, 0.02, 1.0 / 60.0);
    FermentationBalanced();
    ExampleMassBalance();
    assert MassBalanceWarnings([Distillation], ExampleExchanges) == [warning] by {
      assert [Distillation][1..] == [];
    }
    assert ExampleActivities[0] == Fermentation && ExampleActivities[1..] == [Distillation];
  }

  /** A flow named like neither activity has no supplier among them. */
  lemma NoExampleSupplier(name: string)
    requires name != Fermentation.name && name != Distillation.name
    ensures FirstNamed(ExampleActivities, name) == None
  {
    assert ExampleActivities[1..][1..] == [];
  }

  /** Inputs are linked by activity name, and no input of the example names
      an activity: distillation's "Fermented mass" is not "Fermentation".
      So the example's diagram has no edge at all. */
  lemma ExampleDiagramHasNoEdges()
    ensures ProcessGraph(ExampleActivities, ExampleExchanges).edges == map[]
  {
    forall e | e in ExampleExchanges
      ensures !Internal(ExampleActivities, e)
    {
      if e.kind == "input" {
        assert e in [F1, F2, F3, F4, D1, D2];
        NoExampleSupplier(e.flowName);
      }
    }
    var edges := ProcessGraph(ExampleActivities, ExampleExchanges).edges;
    forall uv | uv in edges ensures false {
      DiagramEdges(ExampleActivities, ExampleExchanges, uv.0, uv.1);
    }
    assert edges.Keys == {};
  }

  /** For the same reason, distillation's fermented-mass input becomes an
      edge to the placeholder `generic_Fermented mass`, not to
      fermentation's node. */
  lemma ExampleInputIsGeneric(dbName: string, linked: map<string, Key>)
    ensures EdgeOf(dbName, Key(dbName, "DIST_01"), D1, ExampleActivities, linked).input
         == Some(Key(dbName, GenericPrefix + "Fermented mass"))
  {
    NoExampleSupplier(D1.flowName);
  }

  /** An exchange whose code no activity has gives exactly one error,
      naming that code, even when every activity is otherwise complete. */
  lemma OrphanExchangeRejected(a: Activity, p: Exchange, orphan: Exchange)
    requires p.activityCode == a.code && p.kind == "production"
    requires orphan.activityCode != a.code
    ensures ValidationErrors([a], [p, orphan]) == [OrphanCodes({orphan.activityCode})]
  {
    var excs := [p, orphan];
    assert excs[0] in excs && excs[1] in excs;
    assert ExchangeCodes(excs) == {a.code, orphan.activityCode};
    assert ActivityCodes([a]) == {a.code};
    assert ExchangeCodes(excs) - ActivityCodes([a]) == {orphan.activityCode};
    assert ReferentialErrors([a], excs) == [OrphanCodes({orphan.activityCode})];
    assert HasProduction(a.code, excs);
    assert [a][1..] == [];
    assert ProductionErrors([a], excs) == [];
  }
}
