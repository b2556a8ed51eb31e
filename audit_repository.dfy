/** The in-memory audit trail: an append-only list of log lines. */
module AuditRepository {

  /**
   * The trail. Java keeps the list in a static field shared by every instance; here it is
   * the field of one repository object.
   */
  class InMemoryAuditRepository {
    var auditLog: seq<string>

    constructor ()
      ensures auditLog == []
    {
      auditLog := [];
    }

    /** Appends the entry at the end; earlier entries stay as they were. */
    method Save(event: string)
      modifies this
      ensures auditLog == old(auditLog) + [event]
      ensures |auditLog| == |old(auditLog)| + 1
      ensures old(auditLog) <= auditLog
    {
      auditLog := auditLog + [event];
    }

    /**
     * A copy of the trail in insertion order. The copy is a value: nothing done to it can
     * reach the stored list, and reading changes no state.
     */
    method FindAll() returns (entries: seq<string>)
      ensures entries == auditLog
    {
      entries := auditLog;
    }
  }
}
