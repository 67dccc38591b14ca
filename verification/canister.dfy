/**
 * The canister's state, its five stable maps, and its one update operation,
 * `calculateEmissions`. The caller identity the host supplies becomes an
 * explicit `caller` parameter; `get` on a store is a membership test and a
 * lookup, `insert` a map update.
 */
module Canister {
  import opened Records
  import opened Totals
  import opened Queries

  class Canister {
    var userDataStorage: map<Principal, UserData>
    var userSettingsStorage: map<Principal, UserSettings>
    var environmentalFactorsStorage: map<Principal, EnvironmentalFactors>
    var userActivityHistoryStorage: map<Principal, UserActivityHistory>
    var benchmarkDataStorage: map<Principal, BenchmarkData>

    /** A freshly installed canister: all five stores empty. */
    constructor ()
      ensures userDataStorage == map[] && userSettingsStorage == map[]
      ensures environmentalFactorsStorage == map[]
      ensures userActivityHistoryStorage == map[] && benchmarkDataStorage == map[]
    {
      userDataStorage := map[];
      userSettingsStorage := map[];
      environmentalFactorsStorage := map[];
      userActivityHistoryStorage := map[];
      benchmarkDataStorage := map[];
    }

    /** `calculateEmissions`: validate the submission, look up the factor for
        the activity on the date, scale the emissions by it and append the
        resulting record to the caller's list. Errors are checked in that
        order and leave every store as it was. */
    method CalculateEmissions(caller: Principal, activityType: string, description: string,
                              emissions: nat, date: string)
      returns (r: Result<EmissionRecord>)
      modifies this
      // only the user store is ever written
      ensures userSettingsStorage == old(userSettingsStorage)
      ensures environmentalFactorsStorage == old(environmentalFactorsStorage)
      ensures userActivityHistoryStorage == old(userActivityHistoryStorage)
      ensures benchmarkDataStorage == old(benchmarkDataStorage)
      // a failure writes nothing
      ensures r.Err? ==> userDataStorage == old(userDataStorage)
      // the error cases, in the order they are checked
      ensures (activityType == [] || description == [] || emissions == 0 || date == [])
              <==> r == Err(InvalidInputMessage)
      ensures activityType != [] && description != [] && emissions != 0 && date != [] &&
              FactorKey(activityType, date) !in old(environmentalFactorsStorage)
              ==> r == Err(FactorNotFoundMessage)
      ensures activityType != [] && description != [] && emissions != 0 && date != [] &&
              FactorKey(activityType, date) in old(environmentalFactorsStorage) &&
              caller !in old(userDataStorage)
              ==> r == Err(UserNotFoundMessage)
      // success: exactly when every check passes
      ensures r.Ok? <==>
        activityType != [] && description != [] && emissions != 0 && date != [] &&
        FactorKey(activityType, date) in old(environmentalFactorsStorage) &&
        caller in old(userDataStorage)
      ensures r.Ok? ==>
        && r.value == EmissionRecord(FactorKey(activityType, date), activityType, description,
                                     emissions * old(environmentalFactorsStorage)[FactorKey(activityType, date)].factorValue,
                                     date)
        && userDataStorage == AppendRecord(old(userDataStorage), caller, r.value)
        && GetTotalEmissions(userDataStorage, caller)
           == Ok(TotalOf(old(userDataStorage)[caller].emissionsRecords) + r.value.emissions)
    {
      if activityType == [] || description == [] || emissions == 0 || date == [] {
        return Err(InvalidInputMessage);
      }

      var id := FactorKey(activityType, date);
      if id in environmentalFactorsStorage {
        var environmentalFactor := environmentalFactorsStorage[id];
        var adjustedEmissions := emissions * environmentalFactor.factorValue;
        var emissionRecord := EmissionRecord(id, activityType, description, adjustedEmissions, date);

        if caller in userDataStorage {
          TotalAfterAppend(userDataStorage, caller, emissionRecord);
          userDataStorage := AppendRecord(userDataStorage, caller, emissionRecord);
          r := Ok(emissionRecord);
        } else {
          r := Err(UserNotFoundMessage);
        }
      } else {
        r := Err(FactorNotFoundMessage);
      }
    }
  }

  /** A factor of 2 for commuting on 2024-01-01 and an empty user record:
      recording 50 kg yields a record of 100 kg, and a total of 100. */
  method CommuteScenario() returns (record: Result<EmissionRecord>, total: Result<nat>)
    ensures record.Ok? && record.value.emissions == 100
    ensures record.value.id == FactorKey("commute", "2024-01-01")
    ensures total == Ok(100)
  {
    var c := new Canister();
    var user := FromText("user");
    var key := FactorKey("commute", "2024-01-01");
    c.environmentalFactorsStorage := map[key := EnvironmentalFactors(key, "commute", "car commute", 2)];
    c.userDataStorage := map[user := UserData(user, "alice", [])];
    record := c.CalculateEmissions(user, "commute", "drove to work", 50, "2024-01-01");
    total := GetTotalEmissions(c.userDataStorage, user);
  }
}
