/** Validator: the four checks of `_validate_data`, as functions of the
    parsed activities and exchanges. Errors block the import; warnings do
    not. The importer's method appends what these functions give. */
module Validator {
  import opened Values
  import opened Lci

  /** The units the mass-balance heuristic sums, matched exactly. */
  const MassUnits: set<string> := {"kg", "g", "t", "ton"}

  /** Output/input mass ratios outside [MinRatio, MaxRatio] are suspicious. */
  const MinRatio: real := 0.3
  const MaxRatio: real := 1.2

  function ActivityCodes(acts: seq<Activity>): set<string> {
    set a | a in acts :: a.code
  }

  function ExchangeCodes(excs: seq<Exchange>): set<string> {
    set e | e in excs :: e.activityCode
  }

  // ---------------------------------------------------------------------
  // 1. Referential integrity
  // ---------------------------------------------------------------------

  /** At most one error, naming every exchange code no activity has. */
  function ReferentialErrors(acts: seq<Activity>, excs: seq<Exchange>): seq<Message> {
    var orphans := ExchangeCodes(excs) - ActivityCodes(acts);
    if orphans != {} then [OrphanCodes(orphans)] else []
  }

  /** An exchange code is an orphan when no activity carries it. */
  predicate IsOrphan(code: string, acts: seq<Activity>, excs: seq<Exchange>) {
    (exists e :: e in excs && e.activityCode == code)
    && forall a :: a in acts ==> a.code != code
  }

  /** Exactly one error when some exchange names a code no activity has,
      none otherwise; the error names exactly the orphan codes. */
  lemma ReferentialIntegrity(acts: seq<Activity>, excs: seq<Exchange>)
    ensures |ReferentialErrors(acts, excs)| <= 1
    ensures ReferentialErrors(acts, excs) == [] <==>
              forall e :: e in excs ==> exists a :: a in acts && a.code == e.activityCode
    ensures ReferentialErrors(acts, excs) != [] ==>
              ReferentialErrors(acts, excs)[0].OrphanCodes?
              && forall c :: c in ReferentialErrors(acts, excs)[0].codes <==> IsOrphan(c, acts, excs)
  {
    var orphans := ExchangeCodes(excs) - ActivityCodes(acts);
    forall c ensures c in orphans <==> IsOrphan(c, acts, excs) {
      if IsOrphan(c, acts, excs) {
        var e :| e in excs && e.activityCode == c;
        assert c in ExchangeCodes(excs);
      }
    }
    if orphans == {} {
      forall e | e in excs ensures exists a :: a in acts && a.code == e.activityCode {
        assert e.activityCode in ExchangeCodes(excs);
        assert e.activityCode !in orphans;
        assert e.activityCode in ActivityCodes(acts);
        var a :| a in acts && a.code == e.activityCode;
      }
    } else {
      var c :| c in orphans;
      assert IsOrphan(c, acts, excs);
    }
  }

  // ---------------------------------------------------------------------
  // 2. Production completeness
  // ---------------------------------------------------------------------

  /** `any(exc['activity_code'] == code and exc['type'] == 'production' ...)` */
  predicate HasProduction(code: string, excs: seq<Exchange>) {
    exists e :: e in excs && e.activityCode == code && e.kind == "production"
  }

  /** One error per activity, in activity order, for each activity with no
      production exchange of its own code. */
  function ProductionErrors(acts: seq<Activity>, excs: seq<Exchange>): seq<Message> {
    if acts == [] then []
    else
      (if HasProduction(acts[0].code, excs) then [] else [NoProduction(acts[0].name)])
      + ProductionErrors(acts[1..], excs)
  }

  /** The errors of a list of activities are those of its parts, in order:
      each activity contributes its own at most one error. */
  lemma {:induction false} ProductionErrorsAppend(xs: seq<Activity>, ys: seq<Activity>, excs: seq<Exchange>)
    ensures ProductionErrors(xs + ys, excs) == ProductionErrors(xs, excs) + ProductionErrors(ys, excs)
  {
    if xs != [] {
      assert (xs + ys)[0] == xs[0] && (xs + ys)[1..] == xs[1..] + ys;
      ProductionErrorsAppend(xs[1..], ys, excs);
    } else {
      assert xs + ys == ys;
    }
  }

  /** An error names an activity exactly when some activity of that name
      lacks a production exchange. */
  lemma {:induction false} ProductionErrorsNamed(acts: seq<Activity>, excs: seq<Exchange>)
    ensures forall m :: m in ProductionErrors(acts, excs) ==> m.NoProduction?
    ensures forall n :: NoProduction(n) in ProductionErrors(acts, excs) <==>
              exists a :: a in acts && a.name == n && !HasProduction(a.code, excs)
  {
    if acts != [] {
      ProductionErrorsNamed(acts[1..], excs);
      forall n | exists a :: a in acts && a.name == n && !HasProduction(a.code, excs)
        ensures NoProduction(n) in ProductionErrors(acts, excs)
      {
        var a :| a in acts && a.name == n && !HasProduction(a.code, excs);
        if a != acts[0] {
          assert a in acts[1..];
        }
      }
    }
  }

  /** The activities whose code is not `code`. */
  function WithoutCode(acts: seq<Activity>, code: string): (r: seq<Activity>)
    ensures forall a :: a in r <==> a in acts && a.code != code
  {
    if acts == [] then []
    else (if acts[0].code == code then [] else [acts[0]]) + WithoutCode(acts[1..], code)
  }

  /** Adding a production exchange for a code removes the errors of exactly
      the activities with that code and leaves the others as they were. */
  lemma {:induction false} AddingProductionClears(acts: seq<Activity>, excs: seq<Exchange>, p: Exchange)
    requires p.kind == "production"
    ensures ProductionErrors(acts, excs + [p]) == ProductionErrors(WithoutCode(acts, p.activityCode), excs)
  {
    if acts != [] {
      AddingProductionClears(acts[1..], excs, p);
      var a := acts[0];
      var rest := WithoutCode(acts[1..], p.activityCode);
      assert p in excs + [p];
      if a.code == p.activityCode {
        assert WithoutCode(acts, p.activityCode) == rest;
      } else {
        assert WithoutCode(acts, p.activityCode) == [a] + rest;
        assert ([a] + rest)[0] == a && ([a] + rest)[1..] == rest;
        if HasProduction(a.code, excs + [p]) {
          var e :| e in excs + [p] && e.activityCode == a.code && e.kind == "production";
          assert e in excs;
        }
        assert HasProduction(a.code, excs + [p]) == HasProduction(a.code, excs);
      }
    }
  }

  // ---------------------------------------------------------------------
  // 3. Negative amounts
  // ---------------------------------------------------------------------

  /** One warning per exchange with a negative amount, in exchange order. */
  function NegativeWarnings(excs: seq<Exchange>): seq<Message> {
    if excs == [] then []
    else
      (if IsNegative(excs[0].amount) then [NegativeAmount(excs[0].activityCode, excs[0].flowName)] else [])
      + NegativeWarnings(excs[1..])
  }

  lemma {:induction false} NegativeWarningsAppend(xs: seq<Exchange>, ys: seq<Exchange>)
    ensures NegativeWarnings(xs + ys) == NegativeWarnings(xs) + NegativeWarnings(ys)
  {
    if xs != [] {
      assert (xs + ys)[0] == xs[0] && (xs + ys)[1..] == xs[1..] + ys;
      NegativeWarningsAppend(xs[1..], ys);
    } else {
      assert xs + ys == ys;
    }
  }

  /** Number of exchanges whose amount is below zero (zero and NaN are not). */
  function NegativeCount(excs: seq<Exchange>): nat {
    if excs == [] then 0 else (if IsNegative(excs[0].amount) then 1 else 0) + NegativeCount(excs[1..])
  }

  /** There are as many warnings as negative amounts, each names the
      exchange it is about, and none is raised when no amount is negative. */
  lemma {:induction false} NegativeWarningsCounted(excs: seq<Exchange>)
    ensures |NegativeWarnings(excs)| == NegativeCount(excs)
    ensures forall m :: m in NegativeWarnings(excs) ==>
              exists e :: e in excs && IsNegative(e.amount) && m == NegativeAmount(e.activityCode, e.flowName)
    ensures NegativeWarnings(excs) == [] <==> forall e :: e in excs ==> !IsNegative(e.amount)
  {
    if excs != [] {
      NegativeWarningsCounted(excs[1..]);
      if !IsNegative(excs[0].amount) {
        forall e | e in excs ensures !IsNegative(e.amount) <== NegativeWarnings(excs) == [] {
          if e != excs[0] {
            assert e in excs[1..];
          }
        }
      }
    }
  }

  // ---------------------------------------------------------------------
  // 4. Mass balance
  // ---------------------------------------------------------------------

  /** An input of `code` in a mass unit. */
  predicate MassInput(e: Exchange, code: string) {
    e.activityCode == code && e.kind == "input" && e.unit in MassUnits
  }

  /** A production or emission of `code` in a mass unit. */
  predicate MassOutput(e: Exchange, code: string) {
    e.activityCode == code && (e.kind == "production" || e.kind == "emission") && e.unit in MassUnits
  }

  /** `sum(...)` of the mass inputs of `code`, starting from 0. Over reals
      the grouping of the additions does not matter. */
  function InputMass(code: string, excs: seq<Exchange>): Float {
    if excs == [] then Num(0.0)
    else Add(if MassInput(excs[0], code) then excs[0].amount else Num(0.0), InputMass(code, excs[1..]))
  }

  /** `sum(...)` of the mass outputs of `code`, starting from 0. */
  function OutputMass(code: string, excs: seq<Exchange>): Float {
    if excs == [] then Num(0.0)
    else Add(if MassOutput(excs[0], code) then excs[0].amount else Num(0.0), OutputMass(code, excs[1..]))
  }

  /** The warning for one activity, if its ratio is suspicious. */
  function MassBalanceWarning(a: Activity, excs: seq<Exchange>): Option<Message> {
    var input := InputMass(a.code, excs);
    var output := OutputMass(a.code, excs);
    if IsPositive(input) && IsPositive(output) then
      var ratio := output.value / input.value;
      if ratio < MinRatio || ratio > MaxRatio then
        Some(SuspiciousMassBalance(a.name, input.value, output.value, ratio))
      else None
    else None
  }

  /** At most one warning per activity, in activity order. */
  function MassBalanceWarnings(acts: seq<Activity>, excs: seq<Exchange>): seq<Message> {
    if acts == [] then []
    else
      (if MassBalanceWarning(acts[0], excs).Some? then [MassBalanceWarning(acts[0], excs).value] else [])
      + MassBalanceWarnings(acts[1..], excs)
  }

  lemma {:induction false} MassBalanceWarningsAppend(xs: seq<Activity>, ys: seq<Activity>, excs: seq<Exchange>)
    ensures MassBalanceWarnings(xs + ys, excs) == MassBalanceWarnings(xs, excs) + MassBalanceWarnings(ys, excs)
  {
    if xs != [] {
      assert (xs + ys)[0] == xs[0] && (xs + ys)[1..] == xs[1..] + ys;
      MassBalanceWarningsAppend(xs[1..], ys, excs);
    } else {
      assert xs + ys == ys;
    }
  }

  /** The warning criterion without division: both sums positive, and the
      output below 0.3 or above 1.2 times the input. A ratio of exactly 0.3
      or 1.2 does not warn. */
  lemma MassBalanceCriterion(a: Activity, excs: seq<Exchange>)
    ensures var input := InputMass(a.code, excs);
            var output := OutputMass(a.code, excs);
            && (MassBalanceWarning(a, excs).Some? <==>
                 IsPositive(input) && IsPositive(output)
                 && (output.value < MinRatio * input.value || output.value > MaxRatio * input.value))
            && (MassBalanceWarning(a, excs).Some? ==>
                 MassBalanceWarning(a, excs).value
                 == SuspiciousMassBalance(a.name, input.value, output.value, output.value / input.value))
  {
    var input := InputMass(a.code, excs);
    var output := OutputMass(a.code, excs);
    if IsPositive(input) && IsPositive(output) {
      RatioBounds(input.value, output.value);
    }
  }

  lemma RatioBounds(i: real, o: real)
    requires i > 0.0
    ensures o / i < MinRatio <==> o < MinRatio * i
    ensures o / i > MaxRatio <==> o > MaxRatio * i
  {
    var ratio := o / i;
    assert ratio * i == o;
  }

  lemma {:induction false} NoMassInputsSumToZero(code: string, excs: seq<Exchange>)
    requires forall e :: e in excs && e.activityCode == code ==> e.unit !in MassUnits
    ensures InputMass(code, excs) == Num(0.0) && OutputMass(code, excs) == Num(0.0)
  {
    if excs != [] {
      NoMassInputsSumToZero(code, excs[1..]);
    }
  }

  /** An activity none of whose exchanges is in a mass unit (case-sensitive:
      "KG" is not one) never gets a mass-balance warning. */
  lemma MassBalanceExempt(a: Activity, excs: seq<Exchange>)
    requires forall e :: e in excs && e.activityCode == a.code ==> e.unit !in MassUnits
    ensures MassBalanceWarning(a, excs) == None
  {
    NoMassInputsSumToZero(a.code, excs);
  }

  // ---------------------------------------------------------------------
  // All four checks
  // ---------------------------------------------------------------------

  /** The blocking errors, checks 1 and 2 in that order. */
  function ValidationErrors(acts: seq<Activity>, excs: seq<Exchange>): seq<Message> {
    ReferentialErrors(acts, excs) + ProductionErrors(acts, excs)
  }

  /** The warnings, checks 3 and 4 in that order. */
  function ValidationWarnings(acts: seq<Activity>, excs: seq<Exchange>): seq<Message> {
    NegativeWarnings(excs) + MassBalanceWarnings(acts, excs)
  }

  /** The data passes the gate exactly when every exchange belongs to an
      activity and every activity has a production exchange. */
  lemma ValidationGate(acts: seq<Activity>, excs: seq<Exchange>)
    ensures ValidationErrors(acts, excs) == [] <==>
              (forall e :: e in excs ==> exists a :: a in acts && a.code == e.activityCode)
              && forall a :: a in acts ==> HasProduction(a.code, excs)
  {
    ReferentialIntegrity(acts, excs);
    ProductionErrorsNamed(acts, excs);
    forall a | a in acts
      ensures HasProduction(a.code, excs) || NoProduction(a.name) in ProductionErrors(acts, excs)
    {
    }
    if ProductionErrors(acts, excs) != [] {
      var m := ProductionErrors(acts, excs)[0];
      assert m in ProductionErrors(acts, excs);
      assert NoProduction(m.activityName) in ProductionErrors(acts, excs);
    }
  }

  /** Negative amounts and mass balance only ever warn: no error is one of
      their messages, and no warning is an error's. */
  lemma WarningsNeverBlock(acts: seq<Activity>, excs: seq<Exchange>)
    ensures forall m :: m in ValidationErrors(acts, excs) ==> m.OrphanCodes? || m.NoProduction?
    ensures forall m :: m in ValidationWarnings(acts, excs) ==> m.NegativeAmount? || m.SuspiciousMassBalance?
  {
    ProductionErrorsNamed(acts, excs);
    NegativeWarningsCounted(excs);
    MassBalanceWarningsKinds(acts, excs);
  }

  lemma {:induction false} MassBalanceWarningsKinds(acts: seq<Activity>, excs: seq<Exchange>)
    ensures forall m :: m in MassBalanceWarnings(acts, excs) ==> m.SuspiciousMassBalance?
  {
    if acts != [] {
      MassBalanceWarningsKinds(acts[1..], excs);
    }
  }
}
