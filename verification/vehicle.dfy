/**
 * The vehicle attributes collected by the price-calculator form: ten numeric
 * fields, six check boxes and five closed selections.
 */
module Vehicle {

  /** Body-type selector; `Label` is the option text, which is also the column suffix. */
  datatype BodyType = Convertible | Coupe | OffRoadPickup | Sedan | StationWagon | Van | Other {
    function Label(): string {
      match this
      case Convertible => "Convertible"
      case Coupe => "Coupe"
      case OffRoadPickup => "Off-Road/Pick-up"
      case Sedan => "Sedan"
      case StationWagon => "Station wagon"
      case Van => "Van"
      case Other => "Other"
    }
  }

  /** Transmission selector; `Automatic` is the baseline level with no column of its own. */
  datatype Transmission = Automatic | Manual | SemiAutomatic {
    function Label(): string {
      match this
      case Automatic => "Automatic"
      case Manual => "Manual"
      case SemiAutomatic => "Semi-automatic"
    }
  }

  /** Drive-train selector; `AWD` is the baseline level with no column of its own. */
  datatype DriveTrain = AWD | FrontWheelDrive | RearWheelDrive {
    function Label(): string {
      match this
      case AWD => "AWD"
      case FrontWheelDrive => "Front Wheel Drive"
      case RearWheelDrive => "Rear Wheel Drive"
    }
  }

  /** Fuel-category selector. */
  datatype FuelCategory = Gasoline | Electric | ElectricGasoline | ElectricDiesel | Ethanol | LPG | Others {
    function Label(): string {
      match this
      case Gasoline => "Gasoline"
      case Electric => "Electric"
      case ElectricGasoline => "Electric/Gasoline"
      case ElectricDiesel => "Electric/Diesel"
      case Ethanol => "Ethanol"
      case LPG => "LPG"
      case Others => "Others"
    }
  }

  /** Country selector (ISO country codes). */
  datatype Country = DE | ES | FR | IT | NL | BE | LU {
    function Label(): string {
      match this
      case DE => "DE"
      case ES => "ES"
      case FR => "FR"
      case IT => "IT"
      case NL => "NL"
      case BE => "BE"
      case LU => "LU"
    }
  }

  /**
   * One submission of the form. Floating-point fields are modelled as `real`,
   * integer fields as `int`.
   */
  datatype Inputs = Inputs(
    mileageKm: real,
    powerHp: real,
    weightKg: real,
    cylinders: int,
    cylindersVolumeCc: real,
    nrSeats: int,
    nrDoors: int,
    electricRangeKm: real,
    equipmentTotal: int,
    registrationYear: int,
    hasParticleFilter: bool,
    isUsed: bool,
    hasFullServiceHistory: bool,
    nonSmoking: bool,
    sellerIsDealer: bool,
    sellerTypePrivateSeller: bool,
    bodyType: BodyType,
    transmission: Transmission,
    driveTrain: DriveTrain,
    fuelCategory: FuelCategory,
    country: Country)

  /**
   * The [min, max] range each numeric widget enforces. The widgets clamp their
   * values themselves, so no operation of the model requires this; lemmas use
   * it to state what holds for every value the form can actually produce.
   */
  predicate WithinFormBounds(x: Inputs, currentYear: int) {
    && 0.0 <= x.mileageKm <= 510000.0
    && 50.0 <= x.powerHp <= 7190.0
    && 800.0 <= x.weightKg <= 23000.0
    && 0 <= x.cylinders <= 10
    && 0.0 <= x.cylindersVolumeCc <= 28940.0
    && 1 <= x.nrSeats <= 6
    && 1 <= x.nrDoors <= 6
    && 0.0 <= x.electricRangeKm <= 811.0
    && 0 <= x.equipmentTotal <= 200
    && 1950 <= x.registrationYear <= currentYear
  }
}
