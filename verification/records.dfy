/**
 * The records of the emission-tracking canister, the results its operations
 * return, and the derivation of the key under which an environmental factor
 * (and every emission record made with it) is stored.
 *
 * Every `nat64` field of the canister is a `nat` here: at run time the values
 * are arbitrary-precision integers, so products and sums do not wrap.
 */
module Records {

  /** The identity of a caller or of a stored entry. `Principal.fromText`
      is a parser in a library outside this model; a principal is modelled
      by the text it was made from. */
  datatype Principal = Principal(text: string)

  /** `Principal.fromText`, as a deterministic function of its text. */
  function FromText(t: string): Principal
  {
    Principal(t)
  }

  datatype EmissionRecord = EmissionRecord(
    id: Principal,
    activityType: string,
    description: string,
    emissions: nat,
    date: string)

  datatype UserData = UserData(
    principal: Principal,
    username: string,
    emissionsRecords: seq<EmissionRecord>)

  datatype UserSettings = UserSettings(
    principal: Principal,
    preferredUnits: string,
    notificationsEnabled: bool)

  datatype EnvironmentalFactors = EnvironmentalFactors(
    id: Principal,
    factorName: string,
    factorDescription: string,
    factorValue: nat)

  /** A catalog entry; no store of the canister holds it. */
  datatype ActivityType = ActivityType(
    id: Principal,
    activityName: string,
    activityDescription: string,
    activityEmissionsFactor: nat)

  datatype BenchmarkData = BenchmarkData(
    id: Principal,
    benchmarkName: string,
    emissionsThreshold: nat)

  datatype UserActivityHistory = UserActivityHistory(
    principal: Principal,
    activityType: string,
    history: seq<EmissionRecord>)

  /** What an operation of the canister returns: a value, or an error message. */
  datatype Result<T> = Ok(value: T) | Err(error: string)

  const InvalidInputMessage := "Invalid input parameters. Please enter a valid input."
  const FactorNotFoundMessage := "Environmental factors not found."
  const UserNotFoundMessage := "User not found."

  /** The key (the activity type, a '-', then the date) of the environmental factor for an
      activity on a date; the emission record made with it carries the same id. */
  function FactorKey(activityType: string, date: string): (k: Principal)
    ensures |k.text| == |activityType| + 1 + |date|
    ensures k.text[..|activityType|] == activityType
    ensures k.text[|activityType|] == '-'
    ensures k.text[|activityType| + 1..] == date
  {
    FromText(activityType + "-" + date)
  }

  /** Joining with '-' is not injective: an activity type that itself holds a
      '-' can give the key of another (activity type, date) pair. */
  lemma FactorKeyCollides()
    ensures FactorKey("a-b", "c") == FactorKey("a", "b-c")
  {
  }

  /** When neither activity type holds a '-', equal keys come from equal
      (activity type, date) pairs. */
  lemma FactorKeyInjective(a1: string, d1: string, a2: string, d2: string)
    requires '-' !in a1 && '-' !in a2
    requires FactorKey(a1, d1) == FactorKey(a2, d2)
    ensures a1 == a2 && d1 == d2
  {
  }
}
