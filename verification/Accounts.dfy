/** What the account services share: roles, and how a driver row is linked to a user. */
module Accounts {
  import opened Common

  datatype Role =
    | TenantAdmin | CompanyAdmin | Supervisor | SiteSupervisor | SafetyOfficer
    | TransportManager | HeadOfficeAdmin | DriverRole

  /** The roles the driver pages manage. */
  predicate Managed(r: Role) { r in {DriverRole, SiteSupervisor, SafetyOfficer, TenantAdmin} }

  predicate Present(t: Option<string>) { t.Some? && t.value != "" }

  /** Either key links; a missing or empty key of the user links nothing. */
  predicate Links(username: Option<string>, employeeNo: Option<string>, rowUsername: string, rowEmployeeNumber: Option<string>) {
    || (Present(username) && rowUsername == username.value)
    || (Present(employeeNo) && rowEmployeeNumber == employeeNo)
  }
}
