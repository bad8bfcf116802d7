/**
 * The feature row: one named numeric column per passthrough field, per
 * derived field, per check box and per one-hot level, built as a map from
 * column name to value.
 *
 * Body type, fuel category and country give every option its own column;
 * transmission and drive train have no column for their baseline levels
 * (`Automatic`, `AWD`), which are encoded by all their indicators being 0.
 */
module Features {
  import opened Vehicle
  import Derived

  /** The columns the feature builder can name, one constructor per column kind. */
  datatype Feature =
    | MileageKm | NrSeats | NrDoors | PowerHp | Cylinders | CylindersVolumeCc | WeightKg
    | HasParticleFilter | ElectricRangeKm | IsUsed | HasFullServiceHistory | NonSmoking
    | SellerIsDealer | VehicleAge
    | BodyTypeIs(body: BodyType)
    | TransmissionIs(transmission: Transmission)
    | DriveTrainIs(driveTrain: DriveTrain)
    | FuelCategoryIs(fuel: FuelCategory)
    | CountryCodeIs(country: Country)
    | SellerTypePrivateSeller | KmPerYear | PowerToWeight | EquipmentTotal | LogMileage

  /** The columns the builder emits, in the order it emits them. */
  const BuiltFeatures: seq<Feature> := [
    MileageKm, NrSeats, NrDoors, PowerHp, Cylinders, CylindersVolumeCc, WeightKg,
    HasParticleFilter, ElectricRangeKm, IsUsed, HasFullServiceHistory, NonSmoking,
    SellerIsDealer, VehicleAge,
    BodyTypeIs(Convertible), BodyTypeIs(Coupe), BodyTypeIs(OffRoadPickup), BodyTypeIs(Other),
    BodyTypeIs(Sedan), BodyTypeIs(StationWagon), BodyTypeIs(Van),
    TransmissionIs(Manual), TransmissionIs(SemiAutomatic),
    DriveTrainIs(FrontWheelDrive), DriveTrainIs(RearWheelDrive),
    FuelCategoryIs(Electric), FuelCategoryIs(ElectricDiesel), FuelCategoryIs(ElectricGasoline),
    FuelCategoryIs(Ethanol), FuelCategoryIs(Gasoline), FuelCategoryIs(LPG), FuelCategoryIs(Others),
    CountryCodeIs(BE), CountryCodeIs(DE), CountryCodeIs(ES), CountryCodeIs(FR),
    CountryCodeIs(IT), CountryCodeIs(LU), CountryCodeIs(NL),
    SellerTypePrivateSeller, KmPerYear, PowerToWeight, EquipmentTotal, LogMileage
  ]

  /** The column name of a feature. */
  function Name(f: Feature): string {
    match f
    case MileageKm => "mileage_km"
    case NrSeats => "nr_seats"
    case NrDoors => "nr_doors"
    case PowerHp => "power_hp"
    case Cylinders => "cylinders"
    case CylindersVolumeCc => "cylinders_volume_cc"
    case WeightKg => "weight_kg"
    case HasParticleFilter => "has_particle_filter"
    case ElectricRangeKm => "electric_range_km"
    case IsUsed => "is_used"
    case HasFullServiceHistory => "has_full_service_history"
    case NonSmoking => "non_smoking"
    case SellerIsDealer => "seller_is_dealer"
    case VehicleAge => "vehicle_age"
    case BodyTypeIs(b) => BodyTypeColumn(b)
    case TransmissionIs(t) => TransmissionColumn(t)
    case DriveTrainIs(d) => DriveTrainColumn(d)
    case FuelCategoryIs(c) => FuelCategoryColumn(c)
    case CountryCodeIs(c) => CountryCodeColumn(c)
    case SellerTypePrivateSeller => "seller_type_PrivateSeller"
    case KmPerYear => "km_per_year"
    case PowerToWeight => "power_to_weight"
    case EquipmentTotal => "equipment_total"
    case LogMileage => "log_mileage"
  }

  /*
   * Indicator columns are named `<field>_<level>` after the selector's option
   * text; the country field's column prefix is `country_code_`.
   */

  function BodyTypeColumn(b: BodyType): (name: string)
    ensures name == "body_type_" + b.Label()
  {
    match b
    case Convertible => "body_type_Convertible"
    case Coupe => "body_type_Coupe"
    case OffRoadPickup => "body_type_Off-Road/Pick-up"
    case Sedan => "body_type_Sedan"
    case StationWagon => "body_type_Station wagon"
    case Van => "body_type_Van"
    case Other => "body_type_Other"
  }

  function TransmissionColumn(t: Transmission): (name: string)
    ensures name == "transmission_" + t.Label()
  {
    match t
    case Automatic => "transmission_Automatic"
    case Manual => "transmission_Manual"
    case SemiAutomatic => "transmission_Semi-automatic"
  }

  function DriveTrainColumn(d: DriveTrain): (name: string)
    ensures name == "drive_train_" + d.Label()
  {
    match d
    case AWD => "drive_train_AWD"
    case FrontWheelDrive => "drive_train_Front Wheel Drive"
    case RearWheelDrive => "drive_train_Rear Wheel Drive"
  }

  function FuelCategoryColumn(c: FuelCategory): (name: string)
    ensures name == "fuel_category_" + c.Label()
  {
    match c
    case Gasoline => "fuel_category_Gasoline"
    case Electric => "fuel_category_Electric"
    case ElectricGasoline => "fuel_category_Electric/Gasoline"
    case ElectricDiesel => "fuel_category_Electric/Diesel"
    case Ethanol => "fuel_category_Ethanol"
    case LPG => "fuel_category_LPG"
    case Others => "fuel_category_Others"
  }

  function CountryCodeColumn(c: Country): (name: string)
    ensures name == "country_code_" + c.Label()
  {
    match c
    case DE => "country_code_DE"
    case ES => "country_code_ES"
    case FR => "country_code_FR"
    case IT => "country_code_IT"
    case NL => "country_code_NL"
    case BE => "country_code_BE"
    case LU => "country_code_LU"
  }

  /** Names of scalar columns differ from every other column name. */
  lemma ScalarNameUnique(f: Feature, g: Feature)
    requires !(f.BodyTypeIs? || f.TransmissionIs? || f.DriveTrainIs? || f.FuelCategoryIs? || f.CountryCodeIs?)
    ensures Name(f) == Name(g) ==> f == g
  {
  }

  /* Each indicator column's name differs from every other column name. */

  lemma BodyTypeNameUnique(b: BodyType, g: Feature)
    ensures Name(BodyTypeIs(b)) == Name(g) ==> BodyTypeIs(b) == g
  {
  }

  lemma TransmissionNameUnique(t: Transmission, g: Feature)
    ensures Name(TransmissionIs(t)) == Name(g) ==> TransmissionIs(t) == g
  {
  }

  lemma DriveTrainNameUnique(d: DriveTrain, g: Feature)
    ensures Name(DriveTrainIs(d)) == Name(g) ==> DriveTrainIs(d) == g
  {
  }

  lemma FuelCategoryNameUnique(c: FuelCategory, g: Feature)
    ensures Name(FuelCategoryIs(c)) == Name(g) ==> FuelCategoryIs(c) == g
  {
  }

  lemma CountryCodeNameUnique(c: Country, g: Feature)
    ensures Name(CountryCodeIs(c)) == Name(g) ==> CountryCodeIs(c) == g
  {
  }

  /** No two features share a column name, so a column name determines its feature. */
  lemma NameInjective()
    ensures forall f, g :: Name(f) == Name(g) ==> f == g
  {
    forall f, g | Name(f) == Name(g)
      ensures f == g
    {
      match f
      case BodyTypeIs(b) => BodyTypeNameUnique(b, g);
      case TransmissionIs(t) => TransmissionNameUnique(t, g);
      case DriveTrainIs(d) => DriveTrainNameUnique(d, g);
      case FuelCategoryIs(c) => FuelCategoryNameUnique(c, g);
      case CountryCodeIs(c) => CountryCodeNameUnique(c, g);
      case _ => ScalarNameUnique(f, g);
    }
  }

  /** 1 for true, 0 for false: both `int(flag)` and `1 if selected else 0`. */
  function Indicator(b: bool): real {
    if b then 1.0 else 0.0
  }

  /**
   * The value the builder puts in a feature's column. `log1p` stands for the
   * numeric library's `log(1 + x)`, whose numerics are not modelled.
   */
  function Value(x: Inputs, currentYear: int, log1p: real -> real, f: Feature): real {
    var age := Derived.VehicleAge(currentYear, x.registrationYear);
    match f
    case MileageKm => x.mileageKm
    case NrSeats => x.nrSeats as real
    case NrDoors => x.nrDoors as real
    case PowerHp => x.powerHp
    case Cylinders => x.cylinders as real
    case CylindersVolumeCc => x.cylindersVolumeCc
    case WeightKg => x.weightKg
    case HasParticleFilter => Indicator(x.hasParticleFilter)
    case ElectricRangeKm => x.electricRangeKm
    case IsUsed => Indicator(x.isUsed)
    case HasFullServiceHistory => Indicator(x.hasFullServiceHistory)
    case NonSmoking => Indicator(x.nonSmoking)
    case SellerIsDealer => Indicator(x.sellerIsDealer)
    case VehicleAge => age as real
    case BodyTypeIs(b) => Indicator(x.bodyType == b)
    case TransmissionIs(t) => Indicator(x.transmission == t)
    case DriveTrainIs(d) => Indicator(x.driveTrain == d)
    case FuelCategoryIs(c) => Indicator(x.fuelCategory == c)
    case CountryCodeIs(c) => Indicator(x.country == c)
    case SellerTypePrivateSeller => Indicator(x.sellerTypePrivateSeller)
    case KmPerYear => Derived.KmPerYear(x.mileageKm, age)
    case PowerToWeight => Derived.PowerToWeight(x.powerHp, x.weightKg)
    case EquipmentTotal => x.equipmentTotal as real
    case LogMileage => log1p(x.mileageKm)
  }

  /** The feature row: column name to value, for every column the builder emits. */
  function Row(x: Inputs, currentYear: int, log1p: real -> real): map<string, real> {
    RowOf(x, currentYear, log1p, BuiltFeatures)
  }

  /** The row holding the columns of `fs`, entered one after another as the dictionary literal does. */
  function RowOf(x: Inputs, currentYear: int, log1p: real -> real, fs: seq<Feature>): map<string, real>
    decreases |fs|
  {
    if fs == [] then map[]
    else
      var last := fs[|fs| - 1];
      RowOf(x, currentYear, log1p, fs[..|fs| - 1])[Name(last) := Value(x, currentYear, log1p, last)]
  }

  /** The keys of `RowOf(fs)` are exactly the column names of `fs`. */
  lemma {:induction false} RowOfKeys(x: Inputs, currentYear: int, log1p: real -> real, fs: seq<Feature>, k: string)
    ensures k in RowOf(x, currentYear, log1p, fs) <==> exists f :: f in fs && Name(f) == k
    decreases |fs|
  {
    if fs != [] {
      var init := fs[..|fs| - 1];
      RowOfKeys(x, currentYear, log1p, init, k);
      assert fs == init + [fs[|fs| - 1]];
      if exists f :: f in fs && Name(f) == k {
        var f :| f in fs && Name(f) == k;
        assert f in init || f == fs[|fs| - 1];
      }
    }
  }

  /** Each column of `fs` holds its feature's value, since no two features share a name. */
  lemma {:induction false} RowOfValue(x: Inputs, currentYear: int, log1p: real -> real, fs: seq<Feature>, f: Feature)
    requires f in fs
    ensures Name(f) in RowOf(x, currentYear, log1p, fs)
    ensures RowOf(x, currentYear, log1p, fs)[Name(f)] == Value(x, currentYear, log1p, f)
    decreases |fs|
  {
    var init := fs[..|fs| - 1];
    var last := fs[|fs| - 1];
    assert fs == init + [last];
    if f != last {
      assert f in init;
      RowOfValue(x, currentYear, log1p, init, f);
      NameInjective();
    }
  }

  /** The two baseline levels, which have no column of their own. */
  predicate Baseline(f: Feature) {
    f == TransmissionIs(Automatic) || f == DriveTrainIs(AWD)
  }

  /** Where a non-baseline feature sits in `BuiltFeatures`. */
  function Position(f: Feature): (i: nat)
    requires !Baseline(f)
    ensures i < |BuiltFeatures| && BuiltFeatures[i] == f
  {
    match f
    case MileageKm => 0
    case NrSeats => 1
    case NrDoors => 2
    case PowerHp => 3
    case Cylinders => 4
    case CylindersVolumeCc => 5
    case WeightKg => 6
    case HasParticleFilter => 7
    case ElectricRangeKm => 8
    case IsUsed => 9
    case HasFullServiceHistory => 10
    case NonSmoking => 11
    case SellerIsDealer => 12
    case VehicleAge => 13
    case BodyTypeIs(b) =>
      (match b
       case Convertible => 14 case Coupe => 15 case OffRoadPickup => 16 case Other => 17
       case Sedan => 18 case StationWagon => 19 case Van => 20)
    case TransmissionIs(t) =>
      (match t
       case Manual => 21 case SemiAutomatic => 22)
    case DriveTrainIs(d) =>
      (match d
       case FrontWheelDrive => 23 case RearWheelDrive => 24)
    case FuelCategoryIs(c) =>
      (match c
       case Electric => 25 case ElectricDiesel => 26 case ElectricGasoline => 27
       case Ethanol => 28 case Gasoline => 29 case LPG => 30 case Others => 31)
    case CountryCodeIs(c) =>
      (match c
       case BE => 32 case DE => 33 case ES => 34 case FR => 35
       case IT => 36 case LU => 37 case NL => 38)
    case SellerTypePrivateSeller => 39
    case KmPerYear => 40
    case PowerToWeight => 41
    case EquipmentTotal => 42
    case LogMileage => 43
  }

  /** The builder emits a column for every feature except the two baselines. */
  lemma BuiltExactlyNonBaseline(f: Feature)
    ensures f in BuiltFeatures <==> !Baseline(f)
  {
    if !Baseline(f) {
      assert BuiltFeatures[Position(f)] == f;
    }
    assert forall i :: 0 <= i < |BuiltFeatures| ==> !Baseline(BuiltFeatures[i]);
  }

  /**
   * A feature's column is in the row exactly when the feature is not a
   * baseline level, and it then holds the feature's value.
   */
  lemma RowColumn(x: Inputs, currentYear: int, log1p: real -> real, f: Feature)
    ensures Name(f) in Row(x, currentYear, log1p) <==> !Baseline(f)
    ensures !Baseline(f) ==> Row(x, currentYear, log1p)[Name(f)] == Value(x, currentYear, log1p, f)
  {
    BuiltExactlyNonBaseline(f);
    if !Baseline(f) {
      RowOfValue(x, currentYear, log1p, BuiltFeatures, f);
    } else {
      RowOfKeys(x, currentYear, log1p, BuiltFeatures, Name(f));
      NameInjective();
    }
  }

  /** Every key of the row is the column name of a non-baseline feature. */
  lemma RowKeys(x: Inputs, currentYear: int, log1p: real -> real, k: string)
    ensures k in Row(x, currentYear, log1p) <==> exists f :: !Baseline(f) && Name(f) == k
  {
    RowOfKeys(x, currentYear, log1p, BuiltFeatures, k);
    if k in Row(x, currentYear, log1p) {
      var f :| f in BuiltFeatures && Name(f) == k;
      BuiltExactlyNonBaseline(f);
    }
    if exists f :: !Baseline(f) && Name(f) == k {
      var f :| !Baseline(f) && Name(f) == k;
      RowColumn(x, currentYear, log1p, f);
    }
  }

  /**
   * Body type, fuel category and country give every option a column: the
   * selected option's column is 1 and every other option's column is 0.
   */
  lemma BodyTypeOneHot(x: Inputs, currentYear: int, log1p: real -> real)
    ensures forall b: BodyType :: Name(BodyTypeIs(b)) in Row(x, currentYear, log1p)
    ensures forall b: BodyType :: Row(x, currentYear, log1p)[Name(BodyTypeIs(b))] == 1.0 <==> b == x.bodyType
    ensures forall b: BodyType :: Row(x, currentYear, log1p)[Name(BodyTypeIs(b))] == 0.0 <==> b != x.bodyType
  {
    forall b: BodyType {
      RowColumn(x, currentYear, log1p, BodyTypeIs(b));
    }
  }

  lemma FuelCategoryOneHot(x: Inputs, currentYear: int, log1p: real -> real)
    ensures forall c: FuelCategory :: Name(FuelCategoryIs(c)) in Row(x, currentYear, log1p)
    ensures forall c: FuelCategory :: Row(x, currentYear, log1p)[Name(FuelCategoryIs(c))] == 1.0 <==> c == x.fuelCategory
    ensures forall c: FuelCategory :: Row(x, currentYear, log1p)[Name(FuelCategoryIs(c))] == 0.0 <==> c != x.fuelCategory
  {
    forall c: FuelCategory {
      RowColumn(x, currentYear, log1p, FuelCategoryIs(c));
    }
  }

  lemma CountryCodeOneHot(x: Inputs, currentYear: int, log1p: real -> real)
    ensures forall c: Country :: Name(CountryCodeIs(c)) in Row(x, currentYear, log1p)
    ensures forall c: Country :: Row(x, currentYear, log1p)[Name(CountryCodeIs(c))] == 1.0 <==> c == x.country
    ensures forall c: Country :: Row(x, currentYear, log1p)[Name(CountryCodeIs(c))] == 0.0 <==> c != x.country
  {
    forall c: Country {
      RowColumn(x, currentYear, log1p, CountryCodeIs(c));
    }
  }

  /**
   * Transmission and drive train have no column for their baseline level:
   * every other level has one, at most one of them is 1 (the selected one),
   * and all are 0 exactly when the baseline is selected.
   */
  lemma TransmissionIndicators(x: Inputs, currentYear: int, log1p: real -> real)
    ensures Name(TransmissionIs(Automatic)) !in Row(x, currentYear, log1p)
    ensures forall t: Transmission :: t != Automatic ==> Name(TransmissionIs(t)) in Row(x, currentYear, log1p)
    ensures forall t: Transmission :: t != Automatic ==>
      (Row(x, currentYear, log1p)[Name(TransmissionIs(t))] == 1.0 <==> t == x.transmission)
    ensures forall t: Transmission :: t != Automatic ==>
      (Row(x, currentYear, log1p)[Name(TransmissionIs(t))] == 0.0 <==> t != x.transmission)
    ensures x.transmission == Automatic <==>
      forall t: Transmission :: t != Automatic ==> Row(x, currentYear, log1p)[Name(TransmissionIs(t))] == 0.0
  {
    forall t: Transmission {
      RowColumn(x, currentYear, log1p, TransmissionIs(t));
    }
  }

  lemma DriveTrainIndicators(x: Inputs, currentYear: int, log1p: real -> real)
    ensures Name(DriveTrainIs(AWD)) !in Row(x, currentYear, log1p)
    ensures forall d: DriveTrain :: d != AWD ==> Name(DriveTrainIs(d)) in Row(x, currentYear, log1p)
    ensures forall d: DriveTrain :: d != AWD ==>
      (Row(x, currentYear, log1p)[Name(DriveTrainIs(d))] == 1.0 <==> d == x.driveTrain)
    ensures forall d: DriveTrain :: d != AWD ==>
      (Row(x, currentYear, log1p)[Name(DriveTrainIs(d))] == 0.0 <==> d != x.driveTrain)
    ensures x.driveTrain == AWD <==>
      forall d: DriveTrain :: d != AWD ==> Row(x, currentYear, log1p)[Name(DriveTrainIs(d))] == 0.0
  {
    forall d: DriveTrain {
      RowColumn(x, currentYear, log1p, DriveTrainIs(d));
    }
  }

  /** The six check boxes become exactly 1 when ticked and 0 when not. */
  lemma CheckboxColumns(x: Inputs, currentYear: int, log1p: real -> real)
    ensures var row := Row(x, currentYear, log1p);
      && Name(HasParticleFilter) in row && Name(IsUsed) in row && Name(HasFullServiceHistory) in row
      && Name(NonSmoking) in row && Name(SellerIsDealer) in row && Name(SellerTypePrivateSeller) in row
      && (row[Name(HasParticleFilter)] == 1.0 <==> x.hasParticleFilter)
      && (row[Name(HasParticleFilter)] == 0.0 <==> !x.hasParticleFilter)
      && (row[Name(IsUsed)] == 1.0 <==> x.isUsed)
      && (row[Name(IsUsed)] == 0.0 <==> !x.isUsed)
      && (row[Name(HasFullServiceHistory)] == 1.0 <==> x.hasFullServiceHistory)
      && (row[Name(HasFullServiceHistory)] == 0.0 <==> !x.hasFullServiceHistory)
      && (row[Name(NonSmoking)] == 1.0 <==> x.nonSmoking)
      && (row[Name(NonSmoking)] == 0.0 <==> !x.nonSmoking)
      && (row[Name(SellerIsDealer)] == 1.0 <==> x.sellerIsDealer)
      && (row[Name(SellerIsDealer)] == 0.0 <==> !x.sellerIsDealer)
      && (row[Name(SellerTypePrivateSeller)] == 1.0 <==> x.sellerTypePrivateSeller)
      && (row[Name(SellerTypePrivateSeller)] == 0.0 <==> !x.sellerTypePrivateSeller)
  {
    RowColumn(x, currentYear, log1p, HasParticleFilter);
    RowColumn(x, currentYear, log1p, IsUsed);
    RowColumn(x, currentYear, log1p, HasFullServiceHistory);
    RowColumn(x, currentYear, log1p, NonSmoking);
    RowColumn(x, currentYear, log1p, SellerIsDealer);
    RowColumn(x, currentYear, log1p, SellerTypePrivateSeller);
  }

  /** The numeric form fields are copied into the row unchanged. */
  lemma PassthroughColumns(x: Inputs, currentYear: int, log1p: real -> real)
    ensures var row := Row(x, currentYear, log1p);
      && Name(MileageKm) in row && Name(NrSeats) in row && Name(NrDoors) in row
      && Name(PowerHp) in row && Name(Cylinders) in row && Name(CylindersVolumeCc) in row
      && Name(WeightKg) in row && Name(ElectricRangeKm) in row && Name(EquipmentTotal) in row
      && row[Name(MileageKm)] == x.mileageKm
      && row[Name(NrSeats)] == x.nrSeats as real
      && row[Name(NrDoors)] == x.nrDoors as real
      && row[Name(PowerHp)] == x.powerHp
      && row[Name(Cylinders)] == x.cylinders as real
      && row[Name(CylindersVolumeCc)] == x.cylindersVolumeCc
      && row[Name(WeightKg)] == x.weightKg
      && row[Name(ElectricRangeKm)] == x.electricRangeKm
      && row[Name(EquipmentTotal)] == x.equipmentTotal as real
  {
    RowColumn(x, currentYear, log1p, MileageKm);
    RowColumn(x, currentYear, log1p, NrSeats);
    RowColumn(x, currentYear, log1p, NrDoors);
    RowColumn(x, currentYear, log1p, PowerHp);
    RowColumn(x, currentYear, log1p, Cylinders);
    RowColumn(x, currentYear, log1p, CylindersVolumeCc);
    RowColumn(x, currentYear, log1p, WeightKg);
    RowColumn(x, currentYear, log1p, ElectricRangeKm);
    RowColumn(x, currentYear, log1p, EquipmentTotal);
  }

  /**
   * The derived columns: a non-negative age that is the clamped difference of
   * years, kilometres per year that times `age + 1` give back the mileage, a
   * power-to-weight ratio that is 0 for a non-positive weight, and log-mileage.
   */
  lemma DerivedColumns(x: Inputs, currentYear: int, log1p: real -> real)
    ensures var row := Row(x, currentYear, log1p);
      && Name(VehicleAge) in row && Name(KmPerYear) in row && Name(PowerToWeight) in row && Name(LogMileage) in row
      && var age := row[Name(VehicleAge)];
      && 0.0 <= age
      && age >= (currentYear - x.registrationYear) as real
      && (age == 0.0 || age == (currentYear - x.registrationYear) as real)
      && row[Name(KmPerYear)] * (age + 1.0) == x.mileageKm
      && (x.weightKg > 0.0 ==> row[Name(PowerToWeight)] * x.weightKg == x.powerHp)
      && (x.weightKg <= 0.0 ==> row[Name(PowerToWeight)] == 0.0)
      && row[Name(LogMileage)] == log1p(x.mileageKm)
  {
    RowColumn(x, currentYear, log1p, VehicleAge);
    RowColumn(x, currentYear, log1p, KmPerYear);
    RowColumn(x, currentYear, log1p, PowerToWeight);
    RowColumn(x, currentYear, log1p, LogMileage);
  }
}
