/** The connector activity record that the reporter sends and the hub fans out. */
module Activities {
  /** Times are integers; 0 is the zero time. */
  datatype Activity = Activity(
    phase: string,
    subjectKind: string,
    subjectId: string,
    subjectTitle: string,
    roleId: string,
    step: string,
    startedAt: int,
    updatedAt: int)

  const NO_ACTIVITY := Activity("", "", "", "", "", "", 0, 0)
}
