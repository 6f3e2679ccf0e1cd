/** The session-level types the requirement checks are keyed on. */
module DSSession {

  /** The host operating system, as far as the remediation tables distinguish it. */
  datatype Platform = Linux | Windows | MacOS
}
