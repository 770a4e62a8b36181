/** The four immutable fact records. Identifiers are UUIDs by their integer value,
    whose order is the order of their fixed-width text. Allocation ratios are exact reals. */
module Facts {
  import opened Prelude
  import opened Intervals

  type Uuid = int

  datatype EmploymentVersion = EmploymentVersion(
    tenant: Uuid, employment: Uuid, version: Uuid, person: Uuid, status: string,
    effective: Interval, recorded: Interval, concurrency: string)

  datatype OrganizationUnitVersion = OrganizationUnitVersion(
    tenant: Uuid, unit: Uuid, version: Uuid, parent: Option<Uuid>,
    effective: Interval, recorded: Interval)

  datatype PositionVersion = PositionVersion(
    tenant: Uuid, position: Uuid, version: Uuid, status: string,
    effective: Interval, recorded: Interval)

  datatype AssignmentFact = AssignmentFact(
    tenant: Uuid, assignment: Uuid, employment: Uuid, person: Uuid, position: Uuid, ratio: real,
    effective: Interval, recorded: Interval)

  /** What reconstruction reads of a fact: its tenant, the identity field in use and both periods. */
  datatype FactView = FactView(tenant: Uuid, identity: Option<Uuid>, effective: Interval, recorded: Interval)

  function EmploymentById(): EmploymentVersion -> FactView {
    (v: EmploymentVersion) => FactView(v.tenant, Some(v.employment), v.effective, v.recorded)
  }

  function UnitById(): OrganizationUnitVersion -> FactView {
    (v: OrganizationUnitVersion) => FactView(v.tenant, Some(v.unit), v.effective, v.recorded)
  }

  function AssignmentByEmployment(): AssignmentFact -> FactView {
    (a: AssignmentFact) => FactView(a.tenant, Some(a.employment), a.effective, a.recorded)
  }

  function AssignmentByPosition(): AssignmentFact -> FactView {
    (a: AssignmentFact) => FactView(a.tenant, Some(a.position), a.effective, a.recorded)
  }
}
