/**
 * The advisory validator: five independent threshold rules, each adding one
 * fixed warning, evaluated in a fixed order. Warnings are only displayed; no
 * other operation of the model takes them as input, so they never block the
 * estimate.
 */
module Validation {
  import opened Vehicle
  import opened Derived

  /** The five advisory warnings, declared in the order the rules run. */
  datatype Warning = HighMileage | HighPower | LowWeight | DisplacementWithoutCylinders | VeryOldClassic {

    /** The text shown to the user. */
    function Message(): string {
      match this
      case HighMileage => "⚠️ Kilometraje alto"
      case HighPower => "⚠️ Potencia muy elevada"
      case LowWeight => "⚠️ Peso inusualmente bajo"
      case DisplacementWithoutCylinders => "⚠️ Cilindrada sin cilindros definidos"
      case VeryOldClassic => "⚠️ Vehículo clásico muy antiguo"
    }

    /** Position of the rule in the evaluation order. */
    function Rank(): nat {
      match this
      case HighMileage => 0
      case HighPower => 1
      case LowWeight => 2
      case DisplacementWithoutCylinders => 3
      case VeryOldClassic => 4
    }
  }

  /** The rule table, in evaluation order. */
  const Rules: seq<Warning> := [HighMileage, HighPower, LowWeight, DisplacementWithoutCylinders, VeryOldClassic]

  /** The condition under which each rule adds its warning. */
  predicate Fires(w: Warning, x: Inputs, currentYear: int) {
    match w
    case HighMileage => x.mileageKm > 100000.0
    case HighPower => x.powerHp > 800.0
    case LowWeight => x.weightKg < 900.0
    case DisplacementWithoutCylinders => x.cylinders == 0 && x.cylindersVolumeCc > 0.0
    case VeryOldClassic => VehicleAge(currentYear, x.registrationYear) > 50
  }

  /** Strictly increasing rule positions: rule order kept, no warning twice. */
  predicate InRuleOrder(ws: seq<Warning>) {
    forall i, j :: 0 <= i < j < |ws| ==> ws[i].Rank() < ws[j].Rank()
  }

  /**
   * The validator as the program runs it: start from the empty list and let
   * each rule in turn append its warning when its threshold is crossed.
   */
  function Validate(x: Inputs, currentYear: int): seq<Warning>
  {
    var age := VehicleAge(currentYear, x.registrationYear);
    var ws := [];
    var ws := AppendIf(ws, x.mileageKm > 100000.0, HighMileage);
    var ws := AppendIf(ws, x.powerHp > 800.0, HighPower);
    var ws := AppendIf(ws, x.weightKg < 900.0, LowWeight);
    var ws := AppendIf(ws, x.cylinders == 0 && x.cylindersVolumeCc > 0.0, DisplacementWithoutCylinders);
    var ws := AppendIf(ws, age > 50, VeryOldClassic);
    ws
  }

  /** One rule step: append `w` when the rule's condition holds. */
  function AppendIf(ws: seq<Warning>, condition: bool, w: Warning): seq<Warning> {
    if condition then ws + [w] else ws
  }

  /** No two warnings share a text. */
  lemma MessageInjective(w: Warning, v: Warning)
    ensures w.Message() == v.Message() ==> w == v
  {
  }

  /**
   * The list of texts the program builds: the message of each warning the
   * validator gives, in the same order, none of them repeated.
   */
  function WarningTexts(x: Inputs, currentYear: int): (texts: seq<string>)
    ensures |texts| == |Validate(x, currentYear)|
    ensures forall i :: 0 <= i < |texts| ==> texts[i] == Validate(x, currentYear)[i].Message()
    ensures forall i, j :: 0 <= i < j < |texts| ==> texts[i] != texts[j]
  {
    var ws := Validate(x, currentYear);
    ValidateContract(x, currentYear);
    forall i, j | 0 <= i < j < |ws|
      ensures ws[i].Message() != ws[j].Message()
    {
      MessageInjective(ws[i], ws[j]);
    }
    seq(|ws|, i requires 0 <= i < |ws| => ws[i].Message())
  }

  /** A list in rule order holds at most one warning per rule. */
  lemma {:induction false} OrderedBound(ws: seq<Warning>)
    requires InRuleOrder(ws)
    ensures |ws| <= |Rules|
  {
    if |ws| > |Rules| {
      // ranks strictly increase from at least 0, so the sixth rank would exceed 4
      RanksGrow(ws, 5);
      assert false;
    }
  }

  /** In a list in rule order, the warning at position k has rank at least k. */
  lemma {:induction false} RanksGrow(ws: seq<Warning>, k: nat)
    requires InRuleOrder(ws)
    requires k < |ws|
    ensures ws[k].Rank() >= k
  {
    if k > 0 {
      RanksGrow(ws, k - 1);
    }
  }

  /** The one-element list of `w` when its rule fires, else the empty list. */
  function Hit(w: Warning, x: Inputs, currentYear: int): seq<Warning> {
    if Fires(w, x, currentYear) then [w] else []
  }

  /** Reference definition: the rules of `rules` that fire, kept in table order. */
  function Select(rules: seq<Warning>, x: Inputs, currentYear: int): seq<Warning> {
    if rules == [] then []
    else Hit(rules[0], x, currentYear) + Select(rules[1..], x, currentYear)
  }

  /** A warning is selected exactly when it is in the table and its rule fires. */
  lemma {:induction false} SelectMembers(rules: seq<Warning>, x: Inputs, currentYear: int, w: Warning)
    ensures w in Select(rules, x, currentYear) <==> w in rules && Fires(w, x, currentYear)
  {
    if rules != [] {
      SelectMembers(rules[1..], x, currentYear, w);
      assert w in rules <==> w == rules[0] || w in rules[1..];
    }
  }

  /** Selecting from a table in rule order yields a list in rule order. */
  lemma {:induction false} SelectKeepsOrder(rules: seq<Warning>, x: Inputs, currentYear: int)
    requires InRuleOrder(rules)
    ensures InRuleOrder(Select(rules, x, currentYear))
  {
    if rules != [] {
      var tail := Select(rules[1..], x, currentYear);
      assert InRuleOrder(rules[1..]);
      SelectKeepsOrder(rules[1..], x, currentYear);
      forall w | w in tail
        ensures rules[0].Rank() < w.Rank()
      {
        SelectMembers(rules[1..], x, currentYear, w);
        var j :| 0 <= j < |rules[1..]| && rules[1..][j] == w;
        assert rules[j + 1] == w;
      }
    }
  }

  /**
   * The appending validator is exactly the rule table filtered by the firing
   * conditions, in table order.
   */
  lemma ValidateIsSelect(x: Inputs, currentYear: int)
    ensures Validate(x, currentYear) == Select(Rules, x, currentYear)
  {
    var r4: seq<Warning> := [VeryOldClassic];
    var r3 := [DisplacementWithoutCylinders] + r4;
    var r2 := [LowWeight] + r3;
    var r1 := [HighPower] + r2;
    assert Rules == [HighMileage] + r1;
    var v1 := AppendIf([], Fires(HighMileage, x, currentYear), HighMileage);
    var v2 := AppendIf(v1, Fires(HighPower, x, currentYear), HighPower);
    var v3 := AppendIf(v2, Fires(LowWeight, x, currentYear), LowWeight);
    var v4 := AppendIf(v3, Fires(DisplacementWithoutCylinders, x, currentYear), DisplacementWithoutCylinders);
    var v5 := AppendIf(v4, Fires(VeryOldClassic, x, currentYear), VeryOldClassic);
    assert Validate(x, currentYear) == v5;
    var none: seq<Warning> := [];
    assert Select(none, x, currentYear) == [];
    assert [VeryOldClassic] + none == r4;
    StepMatchesSelect(v4, VeryOldClassic, none, x, currentYear);
    assert v5 == v4 + Select(r4, x, currentYear);
    StepMatchesSelect(v3, DisplacementWithoutCylinders, r4, x, currentYear);
    assert v5 == v3 + Select(r3, x, currentYear);
    StepMatchesSelect(v2, LowWeight, r3, x, currentYear);
    assert v5 == v2 + Select(r2, x, currentYear);
    StepMatchesSelect(v1, HighPower, r2, x, currentYear);
    assert v5 == v1 + Select(r1, x, currentYear);
    StepMatchesSelect([], HighMileage, r1, x, currentYear);
    assert v5 == [] + Select(Rules, x, currentYear);
  }

  /** Appending one rule's warning, then selecting from the rest, is selecting from both. */
  lemma StepMatchesSelect(ws: seq<Warning>, w: Warning, rest: seq<Warning>, x: Inputs, currentYear: int)
    ensures AppendIf(ws, Fires(w, x, currentYear), w) + Select(rest, x, currentYear)
         == ws + Select([w] + rest, x, currentYear)
  {
  }

  /**
   * Each rule adds its warning exactly when its condition holds; the warnings
   * come in rule order with none repeated, so there are at most five, and there
   * are none exactly when no condition holds.
   */
  lemma ValidateContract(x: Inputs, currentYear: int)
    ensures forall w :: w in Validate(x, currentYear) <==> Fires(w, x, currentYear)
    ensures InRuleOrder(Validate(x, currentYear))
    ensures |Validate(x, currentYear)| <= |Rules|
    ensures Validate(x, currentYear) == [] <==> forall w :: !Fires(w, x, currentYear)
  {
    var ws := Validate(x, currentYear);
    ValidateIsSelect(x, currentYear);
    forall w
      ensures w in ws <==> Fires(w, x, currentYear)
    {
      SelectMembers(Rules, x, currentYear, w);
    }
    SelectKeepsOrder(Rules, x, currentYear);
    OrderedBound(ws);
    assert ws != [] ==> ws[0] in ws;
  }

  /**
   * First worked example: only the mileage is out of range, so exactly the
   * high-mileage warning is given.
   */
  lemma HighMileageExample(x: Inputs, currentYear: int)
    requires x.mileageKm == 150000.0 && x.powerHp == 500.0 && x.weightKg == 1600.0
    requires x.cylinders == 6 && x.cylindersVolumeCc == 3000.0 && x.registrationYear == 2018
    requires 2018 <= currentYear <= 2068
    ensures Validate(x, currentYear) == [HighMileage]
  {
  }

  /**
   * Second worked example: too much power and a displacement without
   * cylinders give those two warnings, in rule order.
   */
  lemma PowerAndCylindersExample(x: Inputs, currentYear: int)
    requires x.mileageKm == 50000.0 && x.powerHp == 900.0 && x.weightKg == 1600.0
    requires x.cylinders == 0 && x.cylindersVolumeCc == 3000.0 && x.registrationYear == 2018
    requires 2018 <= currentYear <= 2068
    ensures Validate(x, currentYear) == [HighPower, DisplacementWithoutCylinders]
  {
  }
}
