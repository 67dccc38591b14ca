/**
 * The canister's two read-only queries, `getTotalEmissions` and
 * `generateReport`, as functions of the user store and the caller, and the
 * write that `calculateEmissions` makes to the user store on success.
 */
module Queries {
  import opened Records
  import opened Totals
  import Report

  type UserStore = map<Principal, UserData>

  /** `getTotalEmissions`: the caller's total over their records, or the
      user-not-found error when the caller has no user data. */
  function GetTotalEmissions(users: UserStore, caller: Principal): (r: Result<nat>)
    ensures caller in users ==> r == Ok(TotalOf(users[caller].emissionsRecords))
    ensures caller !in users ==> r == Err(UserNotFoundMessage)
  {
    if caller in users then
      var records := users[caller].emissionsRecords;
      ReduceIsTotal(records, 0);
      Ok(Reduce(records, 0))
    else
      Err(UserNotFoundMessage)
  }

  /** `generateReport`: the report on the same total `getTotalEmissions`
      gives, or the same user-not-found error. */
  function GenerateReport(users: UserStore, caller: Principal): (r: Result<string>)
    ensures r.Err? <==> GetTotalEmissions(users, caller).Err?
    ensures r.Err? ==> r == Err(UserNotFoundMessage)
    ensures caller in users ==> r == Ok(Report.ReportText(TotalOf(users[caller].emissionsRecords)))
    ensures r.Ok? ==>
      var total := TotalOf(users[caller].emissionsRecords);
      Report.ParseReport(r.value) == Report.Some((total, Report.Recommendation(total)))
  {
    if caller in users then
      var total := Reduce(users[caller].emissionsRecords, 0);
      ReduceIsTotal(users[caller].emissionsRecords, 0);
      Ok(Report.ReportText(total))
    else
      Err(UserNotFoundMessage)
  }

  /** The write of a successful `calculateEmissions`: the caller's user data
      again, with the record appended to its list. */
  function AppendRecord(users: UserStore, caller: Principal, record: EmissionRecord): (users': UserStore)
    requires caller in users
    ensures users'.Keys == users.Keys
    ensures forall p :: p in users && p != caller ==> users'[p] == users[p]
    ensures users'[caller].principal == users[caller].principal
    ensures users'[caller].username == users[caller].username
    ensures users'[caller].emissionsRecords == users[caller].emissionsRecords + [record]
  {
    var userData := users[caller];
    users[caller := userData.(emissionsRecords := userData.emissionsRecords + [record])]
  }

  /** After a record is appended, the caller's total has grown by exactly that
      record's emissions and every other user's total is what it was. */
  lemma TotalAfterAppend(users: UserStore, caller: Principal, record: EmissionRecord)
    requires caller in users
    ensures GetTotalEmissions(AppendRecord(users, caller, record), caller)
         == Ok(TotalOf(users[caller].emissionsRecords) + record.emissions)
    ensures forall p :: p != caller ==>
      GetTotalEmissions(AppendRecord(users, caller, record), p) == GetTotalEmissions(users, p)
  {
    TotalAppend(users[caller].emissionsRecords, record);
  }

  /** The user store after a run of successful submissions by one caller,
      each appending its record in turn. */
  function AppendAll(users: UserStore, caller: Principal, records: seq<EmissionRecord>): (users': UserStore)
    requires caller in users
    ensures caller in users'
  {
    if records == [] then users
    else AppendAll(AppendRecord(users, caller, records[0]), caller, records[1..])
  }

  /** After N successful submissions, the caller's total is the old total plus
      the emissions of the N returned records, whatever their order. */
  lemma {:induction false} TotalAfterAppendAll(users: UserStore, caller: Principal,
                                               records: seq<EmissionRecord>, reordered: seq<EmissionRecord>)
    requires caller in users
    requires multiset(reordered) == multiset(records)
    ensures GetTotalEmissions(AppendAll(users, caller, records), caller)
         == Ok(TotalOf(users[caller].emissionsRecords) + TotalOf(reordered))
    decreases |records|
  {
    if records == [] {
      TotalPermutation(reordered, records);
    } else {
      var next := AppendRecord(users, caller, records[0]);
      TotalAfterAppend(users, caller, records[0]);
      TotalAfterAppendAll(next, caller, records[1..], records[1..]);
      assert records == [records[0]] + records[1..];
      TotalPermutation(reordered, records);
    }
  }
}
